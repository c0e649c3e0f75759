/** Which label values survive printing and parsing (collectors_dcgm.go): exactly, for any
    number of labels with any values, written as they are or with the escapes of the text
    exposition format, version 0.0.4. */
module LabelValues {
  import opened Prelude
  import opened Text
  import opened Exposition

  // ---- the format's escapes

  function EscapedChar(c: char): string {
    if c == '\\' then "\\\\" else if c == '"' then "\\\"" else if c == '\n' then "\\n" else [c]
  }

  /** A label value as the format prescribes writing it. */
  function Escaped(v: string): string {
    if v == "" then "" else Escaped(v[..|v| - 1]) + EscapedChar(v[|v| - 1])
  }

  predicate NeedsNoEscape(v: string) {
    '\\' !in v && '"' !in v && '\n' !in v
  }

  lemma EscapedCharFacts(c: char)
    ensures |EscapedChar(c)| == if NeedsNoEscape([c]) then 1 else 2
    ensures NeedsNoEscape([c]) ==> EscapedChar(c) == [c]
    ensures c != '"' ==> '"' !in EscapedChar(c)
    ensures c != '}' ==> '}' !in EscapedChar(c)
  {
  }

  /** e is v with room for at least what v needs escaped. */
  predicate Escapes(e: string, v: string) {
    if NeedsNoEscape(v) then e == v else |e| > |v|
  }

  lemma EscapesStep(e: string, v: string, c: char)
    requires Escapes(e, v)
    ensures Escapes(e + EscapedChar(c), v + [c])
  {
    EscapedCharFacts(c);
    assert NeedsNoEscape(v + [c]) <==> NeedsNoEscape(v) && NeedsNoEscape([c]);
  }

  lemma {:induction false} EscapedLength(v: string)
    ensures Escapes(Escaped(v), v)
  {
    if v != "" {
      var n := |v| - 1;
      EscapedLength(v[..n]);
      EscapesStep(Escaped(v[..n]), v[..n], v[n]);
      assert v == v[..n] + [v[n]];
    }
  }

  // ---- counting characters

  function Count(c: char, s: string): nat {
    if s == "" then 0 else Count(c, s[..|s| - 1]) + if s[|s| - 1] == c then 1 else 0
  }

  lemma {:induction false} CountConcat(c: char, a: string, b: string)
    ensures Count(c, a + b) == Count(c, a) + Count(c, b)
  {
    if b == "" {
      assert a + b == a;
    } else {
      assert (a + b)[..|a + b| - 1] == a + b[..|b| - 1];
      CountConcat(c, a, b[..|b| - 1]);
    }
  }

  lemma {:induction false} CountZeroIff(c: char, s: string)
    ensures Count(c, s) == 0 <==> c !in s
  {
    if s != "" {
      CountZeroIff(c, s[..|s| - 1]);
      assert s == s[..|s| - 1] + [s[|s| - 1]];
    }
  }

  lemma CountOne(c: char, d: char)
    ensures Count(c, [d]) == if d == c then 1 else 0
  {
    assert [d][..0] == "";
  }

  /** Trimming drops white space only. */
  lemma {:induction false} TrimLeftCounts(c: char, s: string)
    requires !IsSpace(c)
    ensures Count(c, TrimLeft(s)) == Count(c, s)
  {
    if s != "" && IsSpace(s[0]) {
      TrimLeftCounts(c, s[1..]);
      assert s == [s[0]] + s[1..];
      CountConcat(c, [s[0]], s[1..]);
      CountOne(c, s[0]);
    }
  }

  lemma {:induction false} TrimRightCounts(c: char, s: string)
    requires !IsSpace(c)
    ensures Count(c, TrimRight(s)) == Count(c, s)
  {
    if s != "" && IsSpace(s[|s| - 1]) {
      TrimRightCounts(c, s[..|s| - 1]);
    }
  }

  lemma UnquotedCounts(c: char, v: string)
    requires c != '"'
    ensures Count(c, Unquoted(v)) == Count(c, v)
  {
    var w := TrimPrefix(v, "\"");
    if w != v {
      assert v == "\"" + w;
      CountConcat(c, "\"", w);
      CountOne(c, '"');
    }
    if Unquoted(v) != w {
      assert w == Unquoted(v) + "\"";
      CountConcat(c, Unquoted(v), "\"");
      CountOne(c, '"');
    }
  }

  // ---- what one part assigns

  predicate HasEquals(kv: string) { IndexOf(kv, '=') < |kv| }

  function KeyIn(kv: string): string
    requires HasEquals(kv)
  {
    TrimSpace(kv[..IndexOf(kv, '=')])
  }

  function ValueIn(kv: string): string
    requires HasEquals(kv)
  {
    Unquoted(TrimSpace(kv[IndexOf(kv, '=') + 1..]))
  }

  /** A value has the characters of its part that stand after the equals sign. */
  lemma ValueCounts(c: char, kv: string)
    requires HasEquals(kv) && !IsSpace(c) && c != '"' && c != '='
    ensures Count(c, kv) == Count(c, kv[..IndexOf(kv, '=')]) + Count(c, ValueIn(kv))
  {
    var eq := IndexOf(kv, '=');
    var k, v := kv[..eq], kv[eq + 1..];
    assert kv == k + "=" + v;
    CountConcat(c, k + "=", v);
    CountConcat(c, k, "=");
    CountOne(c, '=');
    TrimLeftCounts(c, v);
    TrimRightCounts(c, TrimLeft(v));
    UnquotedCounts(c, TrimSpace(v));
  }

  lemma LabelAssigned(m: Labels, kv: string)
    ensures LabelAfter(m, kv) == if HasEquals(kv) then m[KeyIn(kv) := ValueIn(kv)] else m
  {
  }

  // ---- commas: every part but the last costs one

  /** The commas of the parts, and one for each part. */
  function Weight(parts: seq<string>): nat {
    if parts == [] then 0 else Weight(parts[..|parts| - 1]) + Count(',', parts[|parts| - 1]) + 1
  }

  lemma {:induction false} JoinWeight(parts: seq<string>)
    requires parts != []
    ensures Weight(parts) == Count(',', Join(parts)) + 1
  {
    if |parts| > 1 {
      var n := |parts| - 1;
      JoinWeight(parts[..n]);
      CountConcat(',', Join(parts[..n]) + ",", parts[n]);
      CountConcat(',', Join(parts[..n]), ",");
      CountOne(',', ',');
    } else {
      assert parts[..0] == [];
    }
  }

  function Worth(m: Labels, k: string): nat {
    if k in m then Count(',', m[k]) + 1 else 0
  }

  /** The commas of the values of the given keys, and one for each key that has a value. */
  function Score(m: Labels, ks: seq<string>): nat {
    if ks == [] then 0 else Score(m, ks[..|ks| - 1]) + Worth(m, ks[|ks| - 1])
  }

  ghost predicate Distinct(ks: seq<string>) {
    forall i, j :: 0 <= i < j < |ks| ==> ks[i] != ks[j]
  }

  lemma {:induction false} ScoreUntouched(m: Labels, k: string, v: string, ks: seq<string>)
    requires k !in ks
    ensures Score(m[k := v], ks) == Score(m, ks)
  {
    if ks != [] {
      ScoreUntouched(m, k, v, ks[..|ks| - 1]);
    }
  }

  lemma {:induction false} ScoreAssigned(m: Labels, k: string, v: string, ks: seq<string>)
    requires Distinct(ks) && k in ks
    ensures Score(m[k := v], ks) + Worth(m, k) == Score(m, ks) + Count(',', v) + 1
  {
    var n := |ks| - 1;
    if ks[n] == k {
      assert k !in ks[..n];
      ScoreUntouched(m, k, v, ks[..n]);
    } else {
      assert ks == ks[..n] + [ks[n]];
      ScoreAssigned(m, k, v, ks[..n]);
    }
  }

  /** A part adds at most its weight; exactly that only if it gives a new key its value. */
  lemma ScoreStep(m: Labels, kv: string, ks: seq<string>)
    requires Distinct(ks)
    ensures Score(LabelAfter(m, kv), ks) <= Score(m, ks) + Count(',', kv) + 1
    ensures Score(LabelAfter(m, kv), ks) == Score(m, ks) + Count(',', kv) + 1 ==> HasEquals(kv) && KeyIn(kv) !in m
  {
    LabelAssigned(m, kv);
    if HasEquals(kv) {
      ValueCounts(',', kv);
      if KeyIn(kv) in ks {
        ScoreAssigned(m, KeyIn(kv), ValueIn(kv), ks);
      } else {
        ScoreUntouched(m, KeyIn(kv), ValueIn(kv), ks);
      }
    }
  }

  function Read(parts: seq<string>): Labels { FoldLeft(LabelAfter, map[], parts) }

  lemma {:induction false} ScoreAtMostWeight(parts: seq<string>, ks: seq<string>)
    requires Distinct(ks)
    ensures Score(Read(parts), ks) <= Weight(parts)
  {
    if parts == [] {
      ScoreOfNothing(ks);
    } else {
      ScoreAtMostWeight(parts[..|parts| - 1], ks);
      ScoreStep(Read(parts[..|parts| - 1]), parts[|parts| - 1], ks);
    }
  }

  lemma {:induction false} ScoreOfNothing(ks: seq<string>)
    ensures Score(map[], ks) == 0
  {
    if ks != [] {
      ScoreOfNothing(ks[..|ks| - 1]);
    }
  }

  /** What the part assigns is what was read in the end. */
  predicate Settled(m: Labels, kv: string) {
    HasEquals(kv) && KeyIn(kv) in m && m[KeyIn(kv)] == ValueIn(kv)
  }

  ghost predicate AllSettled(m: Labels, parts: seq<string>) {
    forall kv :: kv in parts ==> Settled(m, kv)
  }

  lemma StillSettled(m: Labels, k: string, v: string, parts: seq<string>)
    requires AllSettled(m, parts) && k !in m
    ensures AllSettled(m[k := v], parts)
  {
  }

  lemma SettledOneMore(m: Labels, front: seq<string>, kv: string)
    requires AllSettled(m, front) && HasEquals(kv) && KeyIn(kv) !in m
    ensures AllSettled(LabelAfter(m, kv), front + [kv])
  {
    LabelAssigned(m, kv);
    StillSettled(m, KeyIn(kv), ValueIn(kv), front);
  }

  /** Where nothing is lost, no part is dropped and none is overwritten. */
  lemma {:induction false} NothingLost(parts: seq<string>, ks: seq<string>)
    requires Distinct(ks) && Score(Read(parts), ks) == Weight(parts)
    ensures AllSettled(Read(parts), parts)
  {
    if parts != [] {
      var n := |parts| - 1;
      var front, kv := parts[..n], parts[n];
      ScoreAtMostWeight(front, ks);
      ScoreStep(Read(front), kv, ks);
      NothingLost(front, ks);
      SettledOneMore(Read(front), front, kv);
      assert parts == front + [kv];
    }
  }

  // ---- two ways of cutting one text

  /** b begins where a part may end. */
  predicate Ends(b: string) { b == "" || b[0] == ',' }

  lemma SameCut(a: string, x: string, b: string, y: string)
    requires a + x == b + y && Ends(x) && Ends(y) && Count(',', a) == Count(',', b)
    ensures a == b && x == y
  {
    if |a| < |b| {
      CutsAreOrdered(a, x, b, y);
    } else if |b| < |a| {
      CutsAreOrdered(b, y, a, x);
    } else {
      assert a == (a + x)[..|a|] && b == (b + y)[..|a|];
      assert x == (a + x)[|a|..] && y == (b + y)[|a|..];
    }
  }

  lemma CutsAreOrdered(a: string, x: string, b: string, y: string)
    requires a + x == b + y && Ends(x) && |a| < |b|
    ensures Count(',', a) < Count(',', b)
  {
    var more := b[|a|..];
    assert a == (a + x)[..|a|] == (b + y)[..|a|] == b[..|a|];
    assert b == a + more;
    assert (a + x)[|a|] == (b + y)[|a|] == more[0];
    assert more[0] == ',';
    CountConcat(',', a, more);
    CountZeroIff(',', more);
  }

  function PairTexts(ps: seq<Pair>): seq<string> {
    seq(|ps|, i requires 0 <= i < |ps| => PrintedPair(ps[i]))
  }

  function Keys(ps: seq<Pair>): seq<string> {
    seq(|ps|, i requires 0 <= i < |ps| => ps[i].key)
  }

  ghost predicate PrintableKeys(ps: seq<Pair>) {
    (forall p :: p in ps ==> PrintableKey(p.key)) && Distinct(Keys(ps))
  }

  lemma PairCounts(p: Pair, c: char)
    requires PrintableKey(p.key) && (c == ',' || c == '}')
    ensures Count(c, PrintedPair(p)) == Count(c, p.value)
  {
    var head := p.key + "=\"";
    assert PrintedPair(p) == head + p.value + "\"";
    CountConcat(c, head + p.value, "\"");
    CountConcat(c, head, p.value);
    CountZeroIff(c, head);
    CountZeroIff(c, "\"");
  }

  /** A part that starts where a printed pair does holds the pair's key, and if it settles
      that key with as many commas as the pair's value has, it is the pair. */
  lemma FirstPart(part: string, x: string, p: Pair, y: string, m: Labels)
    requires part + x == PrintedPair(p) + y && Ends(x) && Ends(y)
    requires PrintableKey(p.key) && Settled(m, part)
    requires p.key in m && Count(',', m[p.key]) == Count(',', p.value)
    ensures part == PrintedPair(p) && x == y
  {
    KeyOfFirstPart(part, x, p, y);
    ValueCounts(',', part);
    CountZeroIff(',', p.key);
    PairCounts(p, ',');
    SameCut(part, x, PrintedPair(p), y);
  }

  lemma HeadFits(part: string, x: string, head: string, rest: string)
    requires part + x == head + rest && Ends(x) && ',' !in head
    ensures |head| <= |part|
  {
    assert x != "" ==> (part + x)[|part|] == ',';
    assert forall i :: 0 <= i < |head| ==> (head + rest)[i] == head[i];
  }

  lemma KeyOfFirstPart(part: string, x: string, p: Pair, y: string)
    requires part + x == PrintedPair(p) + y && Ends(x) && PrintableKey(p.key)
    ensures HasEquals(part) && part[..IndexOf(part, '=')] == p.key && KeyIn(part) == p.key
  {
    var head := p.key + "=";
    var text := part + x;
    assert PrintedPair(p) + y == head + (Quoted(p.value) + y);
    assert text[..|head|] == head;
    HeadFits(part, x, head, Quoted(p.value) + y);
    var after := part[|head|..];
    assert part == text[..|part|] && part[..|head|] == text[..|head|];
    assert part == p.key + ['='] + after;
    IndexAfter(p.key, '=', after);
    assert part[..|p.key|] == p.key;
    TrimmedIsFixed(p.key);
  }

  lemma {:induction false} JoinCons(parts: seq<string>)
    requires |parts| > 1
    ensures Join(parts) == parts[0] + "," + Join(parts[1..])
  {
    var n := |parts| - 1;
    if n > 1 {
      JoinCons(parts[..n]);
      assert parts[..n][1..] == parts[1..][..n - 1];
    } else {
      assert parts[..1] == [parts[0]];
    }
  }

  /** The text after the first part. */
  function AfterFirst(parts: seq<string>): string
    requires parts != []
  {
    if |parts| == 1 then "" else "," + Join(parts[1..])
  }

  lemma JoinFirst(parts: seq<string>)
    requires parts != []
    ensures Join(parts) == parts[0] + AfterFirst(parts) && Ends(AfterFirst(parts))
  {
    if |parts| > 1 {
      JoinCons(parts);
    }
  }

  /** The map gives each key of ps a value with the commas of the key's own. */
  ghost predicate Counted(m: Labels, ps: seq<Pair>) {
    forall p :: p in ps ==> PrintableKey(p.key) && p.key in m && Count(',', m[p.key]) == Count(',', p.value)
  }

  lemma HeadsAgree(parts: seq<string>, ps: seq<Pair>, m: Labels)
    requires parts != [] && ps != [] && Join(parts) == Join(PairTexts(ps))
    requires AllSettled(m, parts) && Counted(m, ps)
    ensures parts[0] == PrintedPair(ps[0]) && AfterFirst(parts) == AfterFirst(PairTexts(ps))
  {
    var texts := PairTexts(ps);
    JoinFirst(parts);
    JoinFirst(texts);
    assert parts[0] in parts && ps[0] in ps;
    FirstPart(parts[0], AfterFirst(parts), ps[0], AfterFirst(texts), m);
  }

  lemma TailsKeep(parts: seq<string>, ps: seq<Pair>, m: Labels)
    requires parts != [] && ps != [] && AllSettled(m, parts) && Counted(m, ps)
    ensures AllSettled(m, parts[1..]) && Counted(m, ps[1..]) && PairTexts(ps)[1..] == PairTexts(ps[1..])
  {
  }

  /** Parts that join to a printed text and settle its keys with the right commas are its
      printed pairs. */
  lemma {:induction false} PartsArePairs(parts: seq<string>, ps: seq<Pair>, m: Labels)
    requires parts != [] && ps != [] && Join(parts) == Join(PairTexts(ps))
    requires AllSettled(m, parts) && Counted(m, ps)
    ensures parts == PairTexts(ps)
  {
    var texts := PairTexts(ps);
    HeadsAgree(parts, ps, m);
    TailsJoin(parts, texts);
    TailsKeep(parts, ps, m);
    if |parts| > 1 {
      PartsArePairs(parts[1..], ps[1..], m);
    }
    assert parts == [parts[0]] + parts[1..] && texts == [texts[0]] + texts[1..];
  }

  lemma TailsJoin(a: seq<string>, b: seq<string>)
    requires a != [] && b != [] && AfterFirst(a) == AfterFirst(b)
    ensures (|a| > 1 <==> |b| > 1) && (|a| > 1 ==> Join(a[1..]) == Join(b[1..]))
  {
    assert |a| > 1 ==> AfterFirst(a)[1..] == Join(a[1..]);
    assert |b| > 1 ==> AfterFirst(b)[1..] == Join(b[1..]);
  }

  // ---- reading a printed list of labels

  lemma {:induction false} PrintedIsJoin(ps: seq<Pair>)
    ensures PrintedLabels(ps) == Join(PairTexts(ps))
  {
    if |ps| > 1 {
      PrintedIsJoin(ps[..|ps| - 1]);
      assert PairTexts(ps)[..|ps| - 1] == PairTexts(ps[..|ps| - 1]);
    }
  }

  lemma PrintedEndsInQuote(ps: seq<Pair>)
    requires ps != []
    ensures var s := PrintedLabels(ps); s != "" && s[|s| - 1] == '"'
  {
  }

  lemma {:induction false} DenotedAt(ps: seq<Pair>, i: nat)
    requires Distinct(Keys(ps)) && i < |ps|
    ensures ps[i].key in Denoted(ps) && Denoted(ps)[ps[i].key] == ps[i].value
  {
    var n := |ps| - 1;
    if i < n {
      assert Keys(ps)[..n] == Keys(ps[..n]);
      DenotedAt(ps[..n], i);
      assert Keys(ps)[i] != Keys(ps)[n];
    }
  }

  /** Lists of the same keys whose values have the same commas and braces. */
  ghost predicate Alike(ps: seq<Pair>, qs: seq<Pair>) {
    && |ps| == |qs|
    && forall i :: 0 <= i < |ps| ==> AlikeAt(ps[i], qs[i])
  }

  predicate AlikeAt(p: Pair, q: Pair) {
    p.key == q.key && Count(',', p.value) == Count(',', q.value) && Count('}', p.value) == Count('}', q.value)
  }

  /** Values that are in the map score the weight of their printed pairs. */
  lemma {:induction false} ScoreOfPairs(m: Labels, ps: seq<Pair>)
    requires Counted(m, ps)
    ensures Score(m, Keys(ps)) == Weight(PairTexts(ps))
  {
    if ps != [] {
      var n := |ps| - 1;
      assert Keys(ps)[..n] == Keys(ps[..n]) && PairTexts(ps)[..n] == PairTexts(ps[..n]);
      ScoreOfPairs(m, ps[..n]);
      PairCounts(ps[n], ',');
    }
  }

  lemma AlikeDenotes(ps: seq<Pair>, qs: seq<Pair>)
    requires PrintableKeys(ps) && Alike(ps, qs)
    ensures Counted(Denoted(qs), ps)
  {
    assert forall i :: 0 <= i < |ps| ==> AlikeAt(ps[i], qs[i]);
    assert Keys(ps) == Keys(qs);
    forall p | p in ps ensures p.key in Denoted(qs) && Count(',', Denoted(qs)[p.key]) == Count(',', p.value) {
      var i :| 0 <= i < |ps| && ps[i] == p;
      DenotedAt(qs, i);
    }
  }

  lemma SplitJoins(ps: seq<Pair>)
    requires ps != []
    ensures var parts := SplitOf(PrintedLabels(ps)); parts != [] && Join(parts) == Join(PairTexts(ps))
  {
    PrintedEndsInQuote(ps);
    SplitThenJoin(PrintedLabels(ps));
    PrintedIsJoin(ps);
  }

  /** Whatever the text is read as, if that denotes a list alike, the text was split at its
      own pairs. */
  lemma ReadAlikeIsSplitWell(ps: seq<Pair>, qs: seq<Pair>)
    requires ps != [] && PrintableKeys(ps) && Alike(ps, qs)
    requires LabelsOf(PrintedLabels(ps)) == Denoted(qs)
    ensures SplitOf(PrintedLabels(ps)) == PairTexts(ps)
  {
    var parts := SplitOf(PrintedLabels(ps));
    SplitJoins(ps);
    JoinWeight(parts);
    JoinWeight(PairTexts(ps));
    AlikeDenotes(ps, qs);
    ScoreOfPairs(Denoted(qs), ps);
    NothingLost(parts, Keys(ps));
    PartsArePairs(parts, ps, Denoted(qs));
  }

  lemma {:induction false} TextsAreFlat(ps: seq<Pair>)
    ensures FlatMap(ps, PairText) == PairTexts(ps)
  {
    if ps != [] {
      TextsAreFlat(ps[..|ps| - 1]);
      assert PairTexts(ps)[..|ps| - 1] == PairTexts(ps[..|ps| - 1]);
    }
  }

  lemma DenotedSame(ps: seq<Pair>, qs: seq<Pair>)
    requires PrintableKeys(ps) && Alike(ps, qs) && Denoted(ps) == Denoted(qs)
    ensures ps == qs
  {
    assert forall i :: 0 <= i < |ps| ==> AlikeAt(ps[i], qs[i]);
    assert Keys(ps) == Keys(qs);
    forall i | 0 <= i < |ps| ensures ps[i] == qs[i] {
      DenotedAt(ps, i);
      DenotedAt(qs, i);
    }
  }

  /** The labels of a printed list are those of a list alike iff the text splits at its own
      pairs and the lists are the same. */
  lemma LabelsDenoteIff(ps: seq<Pair>, qs: seq<Pair>)
    requires PrintableKeys(ps) && Alike(ps, qs)
    ensures LabelsOf(PrintedLabels(ps)) == Denoted(qs) <==> SplitOf(PrintedLabels(ps)) == PairTexts(ps) && ps == qs
  {
    LabelsOfPairs(ps);
    TextsAreFlat(ps);
    if ps != [] && LabelsOf(PrintedLabels(ps)) == Denoted(qs) {
      ReadAlikeIsSplitWell(ps, qs);
      DenotedSame(ps, qs);
    }
  }

  // ---- where a printed text splits

  lemma {:induction false} QuoteOpenConcat(a: string, b: string)
    ensures QuoteOpen(a + b) <==> QuoteOpen(a) != QuoteOpen(b)
  {
    if b == "" {
      assert a + b == a;
    } else {
      assert (a + b)[..|a + b| - 1] == a + b[..|b| - 1];
      QuoteOpenConcat(a, b[..|b| - 1]);
    }
  }

  /** Every comma of s stands inside quotes. */
  ghost predicate CommasInside(s: string) {
    forall i :: 0 <= i < |s| && s[i] == ',' ==> QuoteOpen(s[..i])
  }

  lemma CommasInsideStep(s: string)
    requires s != ""
    ensures CommasInside(s) <==> CommasInside(s[..|s| - 1]) && (s[|s| - 1] == ',' ==> QuoteOpen(s[..|s| - 1]))
  {
    var n := |s| - 1;
    forall i | 0 <= i < n ensures s[..n][i] == s[i] && s[..n][..i] == s[..i] {
    }
    if CommasInside(s) {
      forall i | 0 <= i < n && s[..n][i] == ',' ensures QuoteOpen(s[..n][..i]) {
        assert s[i] == ',';
      }
    }
  }

  /** Splitting starts no new part iff every comma stands inside quotes. */
  lemma {:induction false} SplitsNothingIff(s: string)
    ensures FoldLeft(SplitAt, START, s).parts == [] <==> CommasInside(s)
  {
    if s != "" {
      var n := |s| - 1;
      SplitsNothingIff(s[..n]);
      SplitKeepsAll(s[..n]);
      CommasInsideStep(s);
    }
  }

  /** No comma of the value follows an odd number of its quotes. */
  ghost predicate CommasQuoted(x: string) {
    forall i :: 0 <= i < |x| && x[i] == ',' ==> !QuoteOpen(x[..i])
  }

  lemma PlainHasNoOpenQuote(s: string)
    requires '"' !in s
    ensures !QuoteOpen(s)
  {
  }

  lemma InsideQuotes(head: string, x: string, s: string, i: nat)
    requires QuoteOpen(head) && s == head + x + "\"" && i < |x|
    ensures s[|head| + i] == x[i] && (QuoteOpen(s[..|head| + i]) <==> !QuoteOpen(x[..i]))
  {
    assert s[..|head| + i] == head + x[..i];
    QuoteOpenConcat(head, x[..i]);
  }

  lemma QuotedCommas(head: string, x: string, s: string)
    requires QuoteOpen(head) && ',' !in head && s == head + x + "\""
    ensures CommasInside(s) <==> CommasQuoted(x)
  {
    forall i | 0 <= i < |x| ensures s[|head| + i] == x[i] && (QuoteOpen(s[..|head| + i]) <==> !QuoteOpen(x[..i])) {
      InsideQuotes(head, x, s, i);
    }
    assert forall k :: 0 <= k < |head| ==> s[k] == head[k] && head[k] != ',';
    if CommasQuoted(x) {
      forall k | 0 <= k < |s| && s[k] == ',' ensures QuoteOpen(s[..k]) {
        var i := k - |head|;
        assert 0 <= i < |x| && s[|head| + i] == x[i];
      }
    }
    if CommasInside(s) {
      forall i | 0 <= i < |x| && x[i] == ',' ensures !QuoteOpen(x[..i]) {
        assert s[|head| + i] == ',';
      }
    }
  }

  lemma OpensQuote(key: string, head: string)
    requires '"' !in key && head == key + "=\""
    ensures QuoteOpen(head)
  {
    assert head == key + "=" + "\"";
    PlainHasNoOpenQuote(key + "=");
    assert head[..|head| - 1] == key + "=";
  }

  lemma PairIsOnePartIff(p: Pair)
    requires PrintableKey(p.key)
    ensures FoldLeft(SplitAt, START, PrintedPair(p)).parts == [] <==> CommasQuoted(p.value)
  {
    var s, head := PrintedPair(p), p.key + "=\"";
    assert s == head + p.value + "\"";
    SplitsNothingIff(s);
    OpensQuote(p.key, head);
    QuotedCommas(head, p.value, s);
  }

  /** Each comma of a value follows an even number of its quotes, and every value but the
      last has an even number of them. */
  ghost predicate WellQuoted(ps: seq<Pair>) {
    && (forall p :: p in ps ==> CommasQuoted(p.value))
    && forall i :: 0 <= i < |ps| - 1 ==> !QuoteOpen(ps[i].value)
  }

  /** Splitting from between two parts is splitting afresh. */
  lemma {:induction false} SplitShift(parts: seq<string>, s: string)
    ensures var t := FoldLeft(SplitAt, START, s);
            FoldLeft(SplitAt, Split(parts, "", false), s) == Split(parts + t.parts, t.current, t.inQuote)
  {
    if s == "" {
      assert parts + [] == parts;
    } else {
      var n := |s| - 1;
      SplitShift(parts, s[..n]);
      var t := FoldLeft(SplitAt, START, s[..n]);
      assert parts + t.parts + [t.current] == parts + (t.parts + [t.current]);
    }
  }

  lemma QuotesOfPair(p: Pair)
    requires PrintableKey(p.key)
    ensures QuoteOpen(PrintedPair(p)) == QuoteOpen(p.value)
  {
    var head := p.key + "=\"";
    assert PrintedPair(p) == head + p.value + "\"";
    OpensQuote(p.key, head);
    QuoteOpenConcat(head + p.value, "\"");
    QuoteOpenConcat(head, p.value);
    assert "\""[..0] == "";
  }

  /** A pair of well-placed commas is one part, and leaves a quote open as its value does. */
  lemma PairIsRead(p: Pair)
    requires PrintableKey(p.key) && CommasQuoted(p.value)
    ensures FoldLeft(SplitAt, START, PrintedPair(p)) == Split([], PrintedPair(p), QuoteOpen(p.value))
  {
    PairIsOnePartIff(p);
    SplitKeepsAll(PrintedPair(p));
    QuotesOfPair(p);
    assert Terminated([]) == "";
  }

  lemma PrintedStep(ps: seq<Pair>)
    requires |ps| > 1
    ensures var n := |ps| - 1; PrintedLabels(ps) == PrintedLabels(ps[..n]) + "," + PrintedPair(ps[n])
  {
  }

  lemma TextsStep(ps: seq<Pair>)
    requires ps != []
    ensures var n := |ps| - 1;
            PairTexts(ps[..n]) == PairTexts(ps)[..n] && PairTexts(ps) == PairTexts(ps[..n]) + [PrintedPair(ps[n])]
  {
    var n := |ps| - 1;
    assert forall i :: 0 <= i < n ==> PairTexts(ps[..n])[i] == PairTexts(ps)[i];
    assert PairTexts(ps) == PairTexts(ps)[..n] + [PairTexts(ps)[n]];
  }

  /** The state of the splitter after the text of all pairs but the last, and a comma. */
  function BeforeLast(ps: seq<Pair>): Split
    requires |ps| > 1
  {
    SplitAt(FoldLeft(SplitAt, START, PrintedLabels(ps[..|ps| - 1])), ',')
  }

  lemma FoldFromLast(ps: seq<Pair>)
    requires |ps| > 1
    ensures FoldLeft(SplitAt, START, PrintedLabels(ps)) == FoldLeft(SplitAt, BeforeLast(ps), PrintedPair(ps[|ps| - 1]))
  {
    var n := |ps| - 1;
    var before := PrintedLabels(ps[..n]);
    PrintedStep(ps);
    FoldLeftConcat(SplitAt, START, before + ",", PrintedPair(ps[n]));
    FoldLeftConcat(SplitAt, START, before, ",");
    SplitOne(FoldLeft(SplitAt, START, before), ',');
  }

  lemma PairReadFrom(texts: seq<string>, p: Pair)
    requires PrintableKey(p.key) && CommasQuoted(p.value)
    ensures FoldLeft(SplitAt, Split(texts, "", false), PrintedPair(p)) == Split(texts, PrintedPair(p), QuoteOpen(p.value))
  {
    PairIsRead(p);
    SplitShift(texts, PrintedPair(p));
    assert texts + [] == texts;
  }

  lemma LastIsRead(ps: seq<Pair>)
    requires |ps| > 1 && BeforeLast(ps) == Split(PairTexts(ps[..|ps| - 1]), "", false)
    requires PrintableKey(ps[|ps| - 1].key) && CommasQuoted(ps[|ps| - 1].value)
    ensures var n := |ps| - 1;
            FoldLeft(SplitAt, START, PrintedLabels(ps)) == Split(PairTexts(ps[..n]), PrintedPair(ps[n]), QuoteOpen(ps[n].value))
  {
    FoldFromLast(ps);
    PairReadFrom(PairTexts(ps[..|ps| - 1]), ps[|ps| - 1]);
  }

  lemma CommaEndsPart(ps: seq<Pair>)
    requires |ps| > 1
    requires var n, front := |ps| - 2, ps[..|ps| - 1];
             FoldLeft(SplitAt, START, PrintedLabels(front)) == Split(PairTexts(front[..n]), PrintedPair(front[n]), false)
    ensures BeforeLast(ps) == Split(PairTexts(ps[..|ps| - 1]), "", false)
  {
    TextsStep(ps[..|ps| - 1]);
  }

  lemma {:induction false} WellQuotedSplits(ps: seq<Pair>)
    requires ps != [] && (forall p :: p in ps ==> PrintableKey(p.key)) && WellQuoted(ps)
    ensures var n := |ps| - 1;
            FoldLeft(SplitAt, START, PrintedLabels(ps)) == Split(PairTexts(ps[..n]), PrintedPair(ps[n]), QuoteOpen(ps[n].value))
  {
    var n := |ps| - 1;
    assert ps[n] in ps;
    if n == 0 {
      PairIsRead(ps[0]);
    } else {
      assert ps[..n][n - 1] == ps[n - 1];
      WellQuotedSplits(ps[..n]);
      CommaEndsPart(ps);
      LastIsRead(ps);
    }
  }

  /** Reading on only appends to what was cut, and completes what was begun. */
  ghost predicate Grows(u: Split, t: Split) {
    && u.parts <= t.parts
    && (if t.parts == u.parts then u.current <= t.current else u.current <= t.parts[|u.parts|])
  }

  lemma {:induction false} SplitGrows(u: Split, s: string)
    ensures Grows(u, FoldLeft(SplitAt, u, s))
  {
    if s != "" {
      SplitGrows(u, s[..|s| - 1]);
    }
  }

  lemma {:induction false} TerminatedLength(parts: seq<string>, k: nat)
    requires k < |parts|
    ensures |Terminated(parts[..k])| + |parts[k]| + 1 <= |Terminated(parts)|
  {
    var n := |parts| - 1;
    if k < n {
      TerminatedLength(parts[..n], k);
      assert parts[..n][..k] == parts[..k];
    }
  }

  /** If the text splits at its pairs, so it did before the last, at a comma outside quotes. */
  lemma SplitBeforeLast(texts: seq<string>, u: Split, t: Split)
    requires Grows(u, t) && t.parts == texts
    requires Terminated(u.parts) + u.current == Terminated(texts)
    ensures u.parts == texts && u.current == ""
  {
    var k := |u.parts|;
    assert u.parts == texts[..k];
    if k < |texts| {
      TerminatedLength(texts, k);
    }
  }

  lemma {:induction false} TerminatedJoin(parts: seq<string>)
    requires parts != []
    ensures Terminated(parts) == Join(parts) + ","
  {
    var n := |parts| - 1;
    assert parts == parts[..n] + [parts[n]];
    JoinTerminated(parts[..n], parts[n]);
  }

  lemma SplitAs(s: string, texts: seq<string>)
    requires s != "" && s[|s| - 1] == '"' && texts != [] && SplitOf(s) == texts
    ensures var n, t := |texts| - 1, FoldLeft(SplitAt, START, s); t.parts == texts[..n] && t.current == texts[n]
  {
    SplitKeepsAll(s);
    var t := FoldLeft(SplitAt, START, s);
    assert t.parts + [t.current] == texts;
  }

  lemma SplitAsPairs(ps: seq<Pair>)
    requires ps != [] && SplitOf(PrintedLabels(ps)) == PairTexts(ps)
    ensures var n, t := |ps| - 1, FoldLeft(SplitAt, START, PrintedLabels(ps));
            t.parts == PairTexts(ps[..n]) && t.current == PrintedPair(ps[n])
  {
    PrintedEndsInQuote(ps);
    SplitAs(PrintedLabels(ps), PairTexts(ps));
    TextsStep(ps);
  }

  lemma FrontIsSplit(ps: seq<Pair>)
    requires |ps| > 1 && SplitOf(PrintedLabels(ps)) == PairTexts(ps)
    ensures BeforeLast(ps).parts == PairTexts(ps[..|ps| - 1]) && BeforeLast(ps).current == ""
  {
    var n := |ps| - 1;
    var front, u := ps[..n], BeforeLast(ps);
    SplitAsPairs(ps);
    FoldFromLast(ps);
    SplitGrows(u, PrintedPair(ps[n]));
    SplitKeepsAll(PrintedLabels(front));
    SplitAtKeeps(FoldLeft(SplitAt, START, PrintedLabels(front)), ',');
    PrintedIsJoin(front);
    TerminatedJoin(PairTexts(front));
    SplitBeforeLast(PairTexts(front), u, FoldLeft(SplitAt, START, PrintedLabels(ps)));
  }

  lemma FrontSplitsToo(ps: seq<Pair>)
    requires |ps| > 1 && SplitOf(PrintedLabels(ps)) == PairTexts(ps)
    ensures var front := ps[..|ps| - 1];
            SplitOf(PrintedLabels(front)) == PairTexts(front) && !FoldLeft(SplitAt, START, PrintedLabels(front)).inQuote
  {
    var front := ps[..|ps| - 1];
    FrontIsSplit(ps);
    CommaAfter(PrintedLabels(front), PairTexts(front));
    PrintedEndsInQuote(front);
    SplitKeepsAll(PrintedLabels(front));
  }

  lemma CommaAfter(s: string, texts: seq<string>)
    requires var u := SplitAt(FoldLeft(SplitAt, START, s), ','); u.parts == texts && u.current == ""
    ensures var t := FoldLeft(SplitAt, START, s); !t.inQuote && t.parts + [t.current] == texts
  {
  }

  lemma LastIsOnePart(ps: seq<Pair>)
    requires |ps| > 1 && PrintableKey(ps[|ps| - 1].key) && SplitOf(PrintedLabels(ps)) == PairTexts(ps)
    ensures CommasQuoted(ps[|ps| - 1].value)
  {
    var n := |ps| - 1;
    var texts, t := PairTexts(ps[..n]), FoldLeft(SplitAt, START, PrintedPair(ps[n]));
    FrontIsSplit(ps);
    FrontSplitsToo(ps);
    SplitAsPairs(ps);
    FoldFromLast(ps);
    SplitShift(texts, PrintedPair(ps[n]));
    assert BeforeLast(ps) == Split(texts, "", false);
    assert texts + t.parts == texts;
    assert |texts + t.parts| == |texts| + |t.parts|;
    PairIsOnePartIff(ps[n]);
  }

  lemma {:induction false} SplitIsWellQuoted(ps: seq<Pair>)
    requires ps != [] && (forall p :: p in ps ==> PrintableKey(p.key)) && SplitOf(PrintedLabels(ps)) == PairTexts(ps)
    ensures WellQuoted(ps)
  {
    var n := |ps| - 1;
    assert ps[n] in ps && PrintableKey(ps[n].key);
    if n == 0 {
      SplitAsPairs(ps);
      PairIsOnePartIff(ps[0]);
    } else {
      var front := ps[..n];
      FrontSplitsToo(ps);
      SplitIsWellQuoted(front);
      WellQuotedSplits(front);
      LastIsOnePart(ps);
      WellQuotedOneMore(ps);
    }
  }

  lemma WellQuotedOneMore(ps: seq<Pair>)
    requires |ps| > 1 && WellQuoted(ps[..|ps| - 1]) && !QuoteOpen(ps[|ps| - 2].value) && CommasQuoted(ps[|ps| - 1].value)
    ensures WellQuoted(ps)
  {
    var n := |ps| - 1;
    assert ps == ps[..n] + [ps[n]];
  }

  /** A printed text splits at its own pairs iff its quotes are well placed. */
  lemma SplitsAtPairsIff(ps: seq<Pair>)
    requires forall p :: p in ps ==> PrintableKey(p.key)
    ensures SplitOf(PrintedLabels(ps)) == PairTexts(ps) <==> WellQuoted(ps)
  {
    if ps != [] {
      if WellQuoted(ps) {
        WellQuotedSplits(ps);
      }
      if SplitOf(PrintedLabels(ps)) == PairTexts(ps) {
        SplitIsWellQuoted(ps);
      }
    }
  }

  // ---- the line

  ghost predicate NoBrace(ps: seq<Pair>) {
    forall p :: p in ps ==> '}' !in p.value
  }

  lemma {:induction false} BraceInText(ps: seq<Pair>)
    requires forall p :: p in ps ==> PrintableKey(p.key)
    ensures '}' in PrintedLabels(ps) <==> !NoBrace(ps)
  {
    if ps != [] {
      var n := |ps| - 1;
      BraceInText(ps[..n]);
      PairCounts(ps[n], '}');
      CountZeroIff('}', PrintedPair(ps[n]));
      CountZeroIff('}', ps[n].value);
      assert ps == ps[..n] + [ps[n]];
      if n > 0 {
        PrintedStep(ps);
      }
    }
  }

  lemma BraceWithin(name: string, s: string, tail: string)
    requires '{' !in name && '}' in s
    ensures var r := ParsedLine(name + "{" + s + "}" + tail);
            r.Some? ==> exists before :: '}' !in before && r.value.labels == LabelsOf(before)
  {
    var j := IndexOf(s, '}');
    var before, after := s[..j], s[j + 1..] + "}" + tail;
    assert s == before + ['}'] + s[j + 1..];
    assert name + "{" + s + "}" + tail == name + "{" + before + "}" + after;
    CutAtBraces(name, before, after);
  }

  lemma LineWithoutBrace(name: string, ps: seq<Pair>, token: string, rest: string)
    requires Trimmed(name) && '{' !in name && PrintableToken(token, rest) && '}' !in PrintedLabels(ps)
    ensures ParsedLine(PrintedLine(name, ps, token, rest)) == Some(Parsed(name, LabelsOf(PrintedLabels(ps)), token))
  {
    BracedTail(name, PrintedLabels(ps), token, rest);
    LineText(name, PrintedLabels(ps), token, rest);
  }

  lemma LineText(name: string, labels: string, token: string, rest: string)
    ensures name + "{" + labels + "} " + token + rest == name + "{" + labels + "}" + (" " + token + rest)
  {
    assert labels + "} " == labels + "}" + " ";
  }

  lemma BracedTail(name: string, labels: string, token: string, rest: string)
    requires Trimmed(name) && '{' !in name && PrintableToken(token, rest) && '}' !in labels
    ensures ParsedLine(name + "{" + labels + "}" + (" " + token + rest))
            == Some(Parsed(name, LabelsOf(labels), token))
  {
    ValueField(token, rest);
    TrimmedIsFixed(name);
    CutAtBraces(name, labels, " " + token + rest);
  }

  ghost predicate BraceFree(m: Labels) {
    forall k :: k in m ==> '}' !in m[k]
  }

  /** No character is read that the text does not have. */
  lemma {:induction false} ReadsNoBrace(parts: seq<string>)
    requires forall kv :: kv in parts ==> '}' !in kv
    ensures BraceFree(Read(parts))
  {
    if parts != [] {
      var n := |parts| - 1;
      ReadsNoBrace(parts[..n]);
      LabelAssigned(Read(parts[..n]), parts[n]);
      if HasEquals(parts[n]) {
        ValueCounts('}', parts[n]);
        CountZeroIff('}', parts[n]);
        CountZeroIff('}', ValueIn(parts[n]));
      }
    }
  }

  lemma {:induction false} PartsHaveNoBrace(s: string)
    requires '}' !in s
    ensures var t := FoldLeft(SplitAt, START, s); '}' !in t.current && forall kv :: kv in t.parts ==> '}' !in kv
  {
    if s != "" {
      PartsHaveNoBrace(s[..|s| - 1]);
    }
  }

  lemma LabelsHaveNoBrace(s: string)
    requires '}' !in s
    ensures BraceFree(LabelsOf(s))
  {
    PartsHaveNoBrace(s);
    var parts := SplitOf(s);
    assert forall kv :: kv in parts ==> '}' !in kv;
    ReadsNoBrace(parts);
  }

  lemma BracesAreLost(name: string, ps: seq<Pair>, token: string, rest: string, qs: seq<Pair>)
    requires '{' !in name && PrintableKeys(ps) && Alike(ps, qs) && !NoBrace(ps)
    ensures var r := ParsedLine(PrintedLine(name, ps, token, rest)); r.Some? ==> r.value.labels != Denoted(qs)
  {
    var labels, tail := PrintedLabels(ps), " " + token + rest;
    assert PrintedLine(name, ps, token, rest) == name + "{" + labels + "}" + tail;
    BraceInText(ps);
    BraceWithin(name, labels, tail);
    var r := ParsedLine(name + "{" + labels + "}" + tail);
    if r.Some? {
      var before :| '}' !in before && r.value.labels == LabelsOf(before);
      LabelsHaveNoBrace(before);
      BraceDenoted(ps, qs);
    }
  }

  lemma BraceDenoted(ps: seq<Pair>, qs: seq<Pair>)
    requires PrintableKeys(ps) && Alike(ps, qs) && !NoBrace(ps)
    ensures !BraceFree(Denoted(qs))
  {
    var p :| p in ps && '}' in p.value;
    var i :| 0 <= i < |ps| && ps[i] == p;
    assert AlikeAt(ps[i], qs[i]);
    CountZeroIff('}', ps[i].value);
    CountZeroIff('}', qs[i].value);
    assert forall j :: 0 <= j < |ps| ==> AlikeAt(ps[j], qs[j]);
    assert Keys(ps) == Keys(qs);
    DenotedAt(qs, i);
  }

  /** The line of ps is read as a list alike iff there is no brace, the quotes are well
      placed, and the lists are the same. */
  lemma LineDenotesIff(name: string, ps: seq<Pair>, token: string, rest: string, qs: seq<Pair>)
    requires Trimmed(name) && '{' !in name && PrintableToken(token, rest) && PrintableKeys(ps) && Alike(ps, qs)
    ensures ParsedLine(PrintedLine(name, ps, token, rest)) == Some(Parsed(name, Denoted(qs), token))
       <==> NoBrace(ps) && WellQuoted(ps) && ps == qs
  {
    BraceInText(ps);
    if NoBrace(ps) {
      LineWithoutBrace(name, ps, token, rest);
      LabelsDenoteIff(ps, qs);
      SplitsAtPairsIff(ps);
    } else {
      BracesAreLost(name, ps, token, rest, qs);
    }
  }

  /** Values printed as they are come back, all of them, iff none has a closing brace, each
      of their commas follows an even number of quotes of its value, and every value but the
      last has an even number of quotes. */
  lemma ValuesReadBackIff(name: string, ps: seq<Pair>, token: string, rest: string)
    requires Trimmed(name) && '{' !in name && PrintableToken(token, rest) && PrintableKeys(ps)
    ensures ParsedLine(PrintedLine(name, ps, token, rest)) == Some(Parsed(name, Denoted(ps), token))
       <==> NoBrace(ps) && WellQuoted(ps)
  {
    LineDenotesIff(name, ps, token, rest, ps);
  }

  // ---- with the format's escapes

  lemma {:induction false} EscapedCounts(c: char, v: string)
    requires c == ',' || c == '}'
    ensures Count(c, Escaped(v)) == Count(c, v)
  {
    if v != "" {
      var n := |v| - 1;
      EscapedCounts(c, v[..n]);
      CountConcat(c, Escaped(v[..n]), EscapedChar(v[n]));
      EscapedCharCount(c, v[n]);
    }
  }

  lemma EscapedCharCount(c: char, d: char)
    requires c == ',' || c == '}'
    ensures Count(c, EscapedChar(d)) == if d == c then 1 else 0
  {
    CountZeroIff(c, EscapedChar(d));
    if d == c {
      assert [c][..0] == "";
    }
  }

  function EscapedPairs(ps: seq<Pair>): seq<Pair> {
    seq(|ps|, i requires 0 <= i < |ps| => Pair(ps[i].key, Escaped(ps[i].value)))
  }

  lemma EscapedAlike(ps: seq<Pair>)
    requires PrintableKeys(ps)
    ensures PrintableKeys(EscapedPairs(ps)) && Alike(EscapedPairs(ps), ps)
  {
    var es := EscapedPairs(ps);
    assert Keys(es) == Keys(ps);
    forall i | 0 <= i < |ps| ensures AlikeAt(es[i], ps[i]) && PrintableKey(es[i].key) {
      EscapedCounts(',', ps[i].value);
      EscapedCounts('}', ps[i].value);
      assert ps[i] in ps;
    }
  }

  /** Nothing in the value is touched by the format's escapes, nor taken for the end of the
      labels. */
  predicate Plain(v: string) { NeedsNoEscape(v) && '}' !in v }

  ghost predicate AllPlain(ps: seq<Pair>) {
    forall p :: p in ps ==> Plain(p.value)
  }

  lemma PlainUnchanged(ps: seq<Pair>)
    ensures EscapedPairs(ps) == ps <==> forall p :: p in ps ==> NeedsNoEscape(p.value)
  {
    forall i | 0 <= i < |ps| ensures EscapedPairs(ps)[i] == ps[i] <==> NeedsNoEscape(ps[i].value) {
      EscapedLength(ps[i].value);
    }
    if EscapedPairs(ps) == ps {
      forall p | p in ps ensures NeedsNoEscape(p.value) {
        var i :| 0 <= i < |ps| && ps[i] == p;
      }
    }
  }

  lemma NoQuoteNoSplit(v: string)
    requires '"' !in v
    ensures CommasQuoted(v)
  {
    forall i | 0 <= i < |v| && v[i] == ',' ensures !QuoteOpen(v[..i]) {
      PlainHasNoOpenQuote(v[..i]);
    }
  }

  /** The values, written as the format prescribes, come back, all of them. */
  predicate ReadBack(name: string, ps: seq<Pair>, token: string, rest: string) {
    ParsedLine(PrintedLine(name, EscapedPairs(ps), token, rest)) == Some(Parsed(name, Denoted(ps), token))
  }

  /** The parser does not undo the format's escapes: the labels of a line come back iff no
      value has a backslash, quote, newline or closing brace. */
  lemma EscapedReadBackIff(name: string, ps: seq<Pair>, token: string, rest: string)
    requires Trimmed(name) && '{' !in name && PrintableToken(token, rest) && PrintableKeys(ps)
    ensures ReadBack(name, ps, token, rest) <==> AllPlain(ps)
  {
    var es := EscapedPairs(ps);
    EscapedAlike(ps);
    LineDenotesIff(name, es, token, rest, ps);
    PlainUnchanged(ps);
    if AllPlain(ps) {
      assert es == ps;
      forall p | p in ps ensures CommasQuoted(p.value) && !QuoteOpen(p.value) {
        NoQuoteNoSplit(p.value);
        PlainHasNoOpenQuote(p.value);
      }
    }
  }

  // ---- one label

  lemma OneLabel(p: Pair)
    requires PrintableKey(p.key)
    ensures PrintableKeys([p]) && Denoted([p]) == map[p.key := p.value]
    ensures EscapedPairs([p]) == [Pair(p.key, Escaped(p.value))]
  {
    FoldLeftStep(Assign, map[], [p], 0);
    assert [p][..1] == [p] && [p][..0] == [];
  }

  /** A value on its own comes back iff it is plain. */
  lemma EscapedValueReadBackIff(name: string, p: Pair, token: string)
    requires Trimmed(name) && '{' !in name && PrintableKey(p.key) && PrintableToken(token, "")
    ensures (ParsedLine(PrintedLine(name, [Pair(p.key, Escaped(p.value))], token, ""))
             == Some(Parsed(name, map[p.key := p.value], token))) <==> Plain(p.value)
  {
    OneLabel(p);
    EscapedReadBackIff(name, [p], token, "");
    assert p in [p];
  }

  /** One label with a brace spoils the line for its neighbours too. */
  lemma BraceSpoilsLine(name: string, ps: seq<Pair>, token: string, rest: string, i: nat)
    requires Trimmed(name) && '{' !in name && PrintableToken(token, rest) && PrintableKeys(ps)
    requires i < |ps| && '}' in ps[i].value
    ensures !ReadBack(name, ps, token, rest)
  {
    EscapedReadBackIff(name, ps, token, rest);
    assert !Plain(ps[i].value);
  }

  /** The value on its own never comes back, whatever the rest of the line. */
  ghost predicate Lost(v: string) {
    forall name, key, token :: PrintableRest(name, key, token) ==> !ReadBack(name, [Pair(key, v)], token, "")
  }

  predicate PrintableRest(name: string, key: string, token: string) {
    Trimmed(name) && '{' !in name && PrintableKey(key) && PrintableToken(token, "")
  }

  lemma BraceIsNeverRead(v: string)
    requires '}' in v
    ensures Lost(v)
  {
    forall name, key, token | PrintableRest(name, key, token) ensures !ReadBack(name, [Pair(key, v)], token, "") {
      OneLabel(Pair(key, v));
      BraceSpoilsLine(name, [Pair(key, v)], token, "", 0);
    }
  }

  /** A value that needs no escape and yet does not come back. */
  lemma BraceIsLost()
    ensures NeedsNoEscape("a}b") && Lost("a}b")
  {
    assert "a}b"[1] == '}';
    BraceIsNeverRead("a}b");
  }

  /** A quote comes back with its backslash. */
  lemma QuoteIsLost(name: string, key: string, e: string, token: string)
    requires Trimmed(name) && '{' !in name && PrintableKey(key) && PrintableToken(token, "")
    requires e == ['\\', '"']
    ensures Escaped(['"']) == e
    ensures ParsedLine(PrintedLine(name, [Pair(key, e)], token, "")) == Some(Parsed(name, map[key := e], token))
  {
    assert ['"'][..0] == "";
    OneLabel(Pair(key, e));
    forall p | p in [Pair(key, e)] ensures CommasQuoted(p.value) && '}' !in p.value {
    }
    ValuesReadBackIff(name, [Pair(key, e)], token, "");
  }
}
