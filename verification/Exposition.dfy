/** Parsing of the Prometheus text exposition format, version 0.0.4 (collectors_dcgm.go),
    against a printer of its sample lines. */
module Exposition {
  import opened Prelude
  import opened Text

  type Labels = map<string, string>

  // ---- splitLabels: commas outside quotes

  /** The parts finished so far, the part being read, and whether a quote is open. */
  datatype Split = Split(parts: seq<string>, current: string, inQuote: bool)

  const START: Split := Split([], "", false)

  function SplitAt(s: Split, ch: char): Split {
    if ch == '"' then Split(s.parts, s.current + [ch], !s.inQuote)
    else if ch == ',' && !s.inQuote then Split(s.parts + [s.current], "", false)
    else Split(s.parts, s.current + [ch], s.inQuote)
  }

  function PartsOf(s: Split): seq<string> {
    if s.current == "" then s.parts else s.parts + [s.current]
  }

  function SplitOf(text: string): seq<string> {
    PartsOf(FoldLeft(SplitAt, START, text))
  }

  method SplitLabels(text: string) returns (parts: seq<string>)
    ensures parts == SplitOf(text)
  {
    parts := [];
    var b, inQuote := "", false;
    for i := 0 to |text|
      invariant FoldLeft(SplitAt, START, text[..i]) == Split(parts, b, inQuote)
    {
      FoldLeftStep(SplitAt, START, text, i);
      var ch := text[i];
      match ch {
        case '"' =>
          inQuote := !inQuote;
          b := b + [ch];
        case ',' =>
          if inQuote {
            b := b + [ch];
          } else {
            parts, b := parts + [b], "";
          }
        case _ =>
          b := b + [ch];
      }
    }
    assert text[..|text|] == text;
    if |b| > 0 {
      parts := parts + [b];
    }
  }

  // ---- parseLabels

  function Unquoted(v: string): string {
    TrimSuffix(TrimPrefix(v, "\""), "\"")
  }

  function LabelAfter(m: Labels, kv: string): Labels {
    var eq := IndexOf(kv, '=');
    if eq == |kv| then m else m[TrimSpace(kv[..eq]) := Unquoted(TrimSpace(kv[eq + 1..]))]
  }

  function LabelsOf(text: string): Labels {
    FoldLeft(LabelAfter, map[], SplitOf(text))
  }

  method ParseLabels(text: string) returns (out: Labels)
    ensures out == LabelsOf(text)
  {
    var parts := SplitLabels(text);
    out := map[];
    for i := 0 to |parts|
      invariant out == FoldLeft(LabelAfter, map[], parts[..i])
    {
      FoldLeftStep(LabelAfter, map[], parts, i);
      var kv := parts[i];
      var eq := IndexOf(kv, '=');
      if eq == |kv| {
        continue;
      }
      var k, v := TrimSpace(kv[..eq]), TrimSpace(kv[eq + 1..]);
      v := TrimPrefix(v, "\"");
      v := TrimSuffix(v, "\"");
      out := out[k := v];
    }
    assert parts[..|parts|] == parts;
  }

  // ---- parseExpositionLine

  function FieldEnd(s: string): (n: nat)
    ensures n <= |s|
    ensures s != "" && !IsSpace(s[0]) ==> n > 0
  {
    if s == "" || IsSpace(s[0]) then 0 else 1 + FieldEnd(s[1..])
  }

  /** The first white-space separated field, and what follows it. */
  function FirstField(s: string): (string, string) {
    var t := TrimLeft(s);
    (t[..FieldEnd(t)], t[FieldEnd(t)..])
  }

  datatype Sample = Sample(name: string, labels: Labels, value: real)

  /** A line's name, labels and the text its value is read from, if it has a value. */
  datatype Parsed = Parsed(name: string, labels: Labels, token: string)

  function ParsedTail(name: string, labels: Labels, tail: string): (r: Option<Parsed>)
    ensures r.Some? ==> r.value.labels == labels
  {
    var token := FirstField(TrimSpace(tail)).0;
    if token == "" then None else Some(Parsed(name, labels, token))
  }

  function ParsedLine(line: string): Option<Parsed> {
    var i := IndexOf(line, '{');
    if i < |line| then
      var rest := line[i + 1..];
      var j := IndexOf(rest, '}');
      if j == |rest| then None
      else ParsedTail(TrimSpace(line[..i]), LabelsOf(rest[..j]), rest[j + 1..])
    else
      var (name, rest) := FirstField(line);
      var token := FirstField(rest).0;
      if name == "" || token == "" then None else Some(Parsed(TrimSpace(name), map[], token))
  }

  /** ParseFloat, left abstract. */
  type FloatParser = string -> Option<real>

  function SampleOf(line: string, float: FloatParser): Option<Sample> {
    match ParsedLine(line)
    case None => None
    case Some(p) => if float(p.token).None? then None else Some(Sample(p.name, p.labels, float(p.token).value))
  }

  method ParseExpositionLine(line: string, float: FloatParser) returns (r: Option<Sample>)
    ensures r == SampleOf(line, float)
  {
    var name, labels, tail := "", map[], line;
    var i := IndexOf(line, '{');
    if i < |line| {
      var braced := Braced(line, i);
      if braced.None? {
        return None;
      }
      name, labels, tail := braced.value.0, braced.value.1, braced.value.2;
    } else {
      var fields := TwoFields(line);
      if fields.None? {
        return None;
      }
      name, tail := fields.value.0, fields.value.1;
    }
    r := ValueOf(name, labels, tail, float);
  }

  /** The sample whose value is the first field of tail. */
  method ValueOf(name: string, labels: Labels, tail: string, float: FloatParser) returns (r: Option<Sample>)
    ensures var token := FirstField(tail).0;
            r == if token == "" || float(token).None? then None else Some(Sample(TrimSpace(name), labels, float(token).value))
  {
    var token := FirstField(tail).0;
    if token == "" {
      return None;
    }
    var v := float(token);
    if v.None? {
      return None;
    }
    r := Some(Sample(TrimSpace(name), labels, v.value));
  }

  /** The name, labels and tail of a line with a brace at i. */
  method Braced(line: string, i: nat) returns (r: Option<(string, Labels, string)>)
    requires i < |line|
    ensures var rest := line[i + 1..];
            var j := IndexOf(rest, '}');
            r == if j == |rest| then None else Some((line[..i], LabelsOf(rest[..j]), TrimSpace(rest[j + 1..])))
  {
    var rest := line[i + 1..];
    var j := IndexOf(rest, '}');
    if j == |rest| {
      return None;
    }
    var labels := ParseLabels(rest[..j]);
    r := Some((line[..i], labels, TrimSpace(rest[j + 1..])));
  }

  /** The first two fields; the second is its own first field. */
  method TwoFields(line: string) returns (r: Option<(string, string)>)
    ensures var name, token := FirstField(line).0, FirstField(FirstField(line).1).0;
            if name == "" || token == "" then r == None else r == Some((name, token)) && FirstField(token).0 == token
  {
    var fields := FirstField(line);
    var second := FirstField(fields.1).0;
    if fields.0 == "" || second == "" {
      return None;
    }
    FieldHasNoSpace(fields.1);
    FieldOfToken(second, "");
    assert second + "" == second;
    r := Some((fields.0, second));
  }

  predicate NoSpace(s: string) {
    forall i :: 0 <= i < |s| ==> !IsSpace(s[i])
  }

  lemma {:induction false} FieldEndMeans(s: string)
    ensures NoSpace(s[..FieldEnd(s)]) && (FieldEnd(s) < |s| ==> IsSpace(s[FieldEnd(s)]))
  {
    if s != "" && !IsSpace(s[0]) {
      FieldEndMeans(s[1..]);
      assert s[..FieldEnd(s)] == [s[0]] + s[1..][..FieldEnd(s) - 1];
    }
  }

  lemma FieldHasNoSpace(s: string)
    ensures NoSpace(FirstField(s).0)
  {
    FieldEndMeans(TrimLeft(s));
  }

  /** A token, alone or followed by a space, is the first field. */
  lemma FieldOfToken(token: string, rest: string)
    requires token != "" && NoSpace(token) && (rest == "" || IsSpace(rest[0]))
    ensures FirstField(token + rest) == (token, rest)
  {
    TokenEnds(token, rest);
    assert (token + rest)[..|token|] == token && (token + rest)[|token|..] == rest;
  }

  lemma {:induction false} TokenEnds(token: string, rest: string)
    requires NoSpace(token) && (rest == "" || IsSpace(rest[0]))
    ensures FieldEnd(token + rest) == |token|
  {
    if token != "" {
      assert (token + rest)[1..] == token[1..] + rest;
      TokenEnds(token[1..], rest);
    } else {
      assert token + rest == rest;
    }
  }

  // ---- splitting loses nothing

  function Join(parts: seq<string>): string {
    if parts == [] then ""
    else if |parts| == 1 then parts[0]
    else Join(parts[..|parts| - 1]) + "," + parts[|parts| - 1]
  }

  function Terminated(parts: seq<string>): string {
    if parts == [] then "" else Terminated(parts[..|parts| - 1]) + parts[|parts| - 1] + ","
  }

  lemma {:induction false} JoinTerminated(parts: seq<string>, last: string)
    ensures Join(parts + [last]) == Terminated(parts) + last
  {
    assert (parts + [last])[..|parts|] == parts;
    if parts != [] {
      var n := |parts| - 1;
      assert parts == parts[..n] + [parts[n]];
      JoinTerminated(parts[..n], parts[n]);
    }
  }

  /** A quote is open after s. */
  predicate QuoteOpen(s: string) {
    s != "" && QuoteOpen(s[..|s| - 1]) != (s[|s| - 1] == '"')
  }

  lemma SplitAtKeeps(t: Split, ch: char)
    ensures var u := SplitAt(t, ch);
            && Terminated(u.parts) + u.current == Terminated(t.parts) + t.current + [ch]
            && u.inQuote == (t.inQuote != (ch == '"'))
            && (u.current == "" <==> ch == ',' && !t.inQuote)
  {
    if ch == ',' && !t.inQuote {
      assert (t.parts + [t.current])[..|t.parts|] == t.parts;
    } else {
      assert Terminated(t.parts) + (t.current + [ch]) == Terminated(t.parts) + t.current + [ch];
    }
  }

  lemma {:induction false} SplitKeepsAll(s: string)
    ensures var t := FoldLeft(SplitAt, START, s);
            && Terminated(t.parts) + t.current == s
            && t.inQuote == QuoteOpen(s)
            && (t.current == "" <==> s == "" || (s[|s| - 1] == ',' && !QuoteOpen(s)))
  {
    if s != "" {
      var n := |s| - 1;
      SplitKeepsAll(s[..n]);
      SplitAtKeeps(FoldLeft(SplitAt, START, s[..n]), s[n]);
      assert s == s[..n] + [s[n]];
    }
  }

  lemma JoinOfParts(t: Split)
    ensures var s := Terminated(t.parts) + t.current;
            if t.current == "" && t.parts != [] then s != "" && Join(PartsOf(t)) == s[..|s| - 1] else Join(PartsOf(t)) == s
  {
    if t.current != "" {
      JoinTerminated(t.parts, t.current);
    } else if t.parts != [] {
      var n := |t.parts| - 1;
      assert t.parts == t.parts[..n] + [t.parts[n]];
      JoinTerminated(t.parts[..n], t.parts[n]);
      assert Terminated(t.parts) == Join(t.parts) + ",";
    }
  }

  /** Joining the parts with commas restores the text, except for one trailing comma that
      stands outside quotes. */
  lemma SplitThenJoin(s: string)
    ensures Join(SplitOf(s)) == if s != "" && s[|s| - 1] == ',' && !QuoteOpen(s) then s[..|s| - 1] else s
  {
    SplitKeepsAll(s);
    JoinOfParts(FoldLeft(SplitAt, START, s));
  }

  // ---- the printer

  datatype Pair = Pair(key: string, value: string)

  function PrintedPair(p: Pair): string {
    p.key + "=\"" + p.value + "\""
  }

  function PrintedLabels(ps: seq<Pair>): string {
    if ps == [] then ""
    else if |ps| == 1 then PrintedPair(ps[0])
    else PrintedLabels(ps[..|ps| - 1]) + "," + PrintedPair(ps[|ps| - 1])
  }

  /** rest is what may follow the value: nothing, or a space and a timestamp. */
  function PrintedLine(name: string, ps: seq<Pair>, token: string, rest: string): string {
    name + "{" + PrintedLabels(ps) + "} " + token + rest
  }

  predicate PrintableKey(k: string) {
    Trimmed(k) && '=' !in k && ',' !in k && '"' !in k && '}' !in k
  }

  /** Commas, equals signs and spaces are allowed in a value; quotes and braces are not. */
  predicate PrintableValue(v: string) {
    '"' !in v && '}' !in v
  }

  predicate Printable(ps: seq<Pair>) {
    forall p :: p in ps ==> PrintableKey(p.key) && PrintableValue(p.value)
  }

  predicate PrintableToken(token: string, rest: string) {
    token != "" && NoSpace(token) && (rest == "" || (rest[0] == ' ' && rest[1..] != "" && NoSpace(rest[1..])))
  }

  function Assign(m: Labels, p: Pair): Labels { m[p.key := p.value] }

  /** What a list of pairs denotes, later pairs winning. */
  function Denoted(ps: seq<Pair>): Labels { FoldLeft(Assign, map[], ps) }

  // ---- splitting what was printed

  lemma {:induction false} SplitPlain(s: Split, text: string)
    requires '"' !in text && (s.inQuote || ',' !in text)
    ensures FoldLeft(SplitAt, s, text) == Split(s.parts, s.current + text, s.inQuote)
  {
    if text == "" {
      assert s.current + "" == s.current;
    } else {
      var n := |text| - 1;
      SplitPlain(s, text[..n]);
      assert s.current + text == s.current + text[..n] + [text[n]];
    }
  }

  lemma SplitOne(s: Split, ch: char)
    ensures FoldLeft(SplitAt, s, [ch]) == SplitAt(s, ch)
  {
    assert [ch][..0] == [];
  }

  /** A printed pair is read as one part. */
  lemma SplitPair(parts: seq<string>, p: Pair)
    requires PrintableKey(p.key) && PrintableValue(p.value)
    ensures FoldLeft(SplitAt, Split(parts, "", false), PrintedPair(p)) == Split(parts, PrintedPair(p), false)
  {
    var s0 := Split(parts, "", false);
    var head, quoted := p.key + "=", "\"" + p.value;
    assert PrintedPair(p) == head + "\"" + p.value + "\"";
    SplitPlain(s0, head);
    assert "" + head == head;
    FoldLeftConcat(SplitAt, s0, head, "\"");
    SplitOne(Split(parts, head, false), '"');
    FoldLeftConcat(SplitAt, s0, head + "\"", p.value);
    SplitPlain(Split(parts, head + "\"", true), p.value);
    FoldLeftConcat(SplitAt, s0, head + "\"" + p.value, "\"");
    SplitOne(Split(parts, head + "\"" + p.value, true), '"');
  }

  function PairText(p: Pair): seq<string> { [PrintedPair(p)] }

  lemma {:induction false} SplitPrinted(ps: seq<Pair>)
    requires ps != [] && Printable(ps)
    ensures var n := |ps| - 1;
            FoldLeft(SplitAt, START, PrintedLabels(ps))
            == Split(FlatMap(ps[..n], PairText), PrintedPair(ps[n]), false)
  {
    var n := |ps| - 1;
    if n == 0 {
      SplitPair([], ps[0]);
    } else {
      var front := ps[..n];
      SplitPrinted(front);
      var s := Split(FlatMap(front[..n - 1], PairText), PrintedPair(front[n - 1]), false);
      var before := PrintedLabels(front);
      FoldLeftConcat(SplitAt, START, before, ",");
      SplitOne(s, ',');
      FoldLeftConcat(SplitAt, START, before + ",", PrintedPair(ps[n]));
      SplitPair(s.parts + [s.current], ps[n]);
    }
  }

  lemma SplitOfPrinted(ps: seq<Pair>)
    requires Printable(ps)
    ensures SplitOf(PrintedLabels(ps)) == FlatMap(ps, PairText)
  {
    if ps != [] {
      SplitPrinted(ps);
    }
  }

  function Quoted(v: string): string { "\"" + v + "\"" }

  lemma UnquotedQuoted(v: string)
    ensures TrimSpace(Quoted(v)) == Quoted(v) && Unquoted(Quoted(v)) == v
  {
    TrimmedIsFixed(Quoted(v));
    assert TrimPrefix(Quoted(v), "\"") == v + "\"";
    assert (v + "\"")[|v|..] == "\"" && (v + "\"")[..|v|] == v;
  }

  lemma CutAtEquals(p: Pair)
    requires '=' !in p.key
    ensures var kv := PrintedPair(p);
            IndexOf(kv, '=') == |p.key| < |kv| && kv[..|p.key|] == p.key && kv[|p.key| + 1..] == Quoted(p.value)
  {
    assert PrintedPair(p) == p.key + ['='] + Quoted(p.value);
    IndexAfter(p.key, '=', Quoted(p.value));
  }

  lemma LabelRead(m: Labels, kv: string, k: string, quoted: string)
    requires IndexOf(kv, '=') == |k| < |kv| && kv[..|k|] == k && kv[|k| + 1..] == quoted
    requires TrimSpace(k) == k && TrimSpace(quoted) == quoted
    ensures LabelAfter(m, kv) == m[k := Unquoted(quoted)]
  {
  }

  /** Reading one printed pair assigns its value to its key. */
  lemma LabelOfPrinted(m: Labels, p: Pair)
    requires PrintableKey(p.key)
    ensures LabelAfter(m, PrintedPair(p)) == Assign(m, p)
  {
    CutAtEquals(p);
    UnquotedQuoted(p.value);
    TrimmedIsFixed(p.key);
    LabelRead(m, PrintedPair(p), p.key, Quoted(p.value));
  }

  lemma {:induction false} LabelsOfPairs(ps: seq<Pair>)
    requires forall p :: p in ps ==> PrintableKey(p.key)
    ensures FoldLeft(LabelAfter, map[], FlatMap(ps, PairText)) == Denoted(ps)
  {
    if ps != [] {
      var n := |ps| - 1;
      LabelsOfPairs(ps[..n]);
      var front := FlatMap(ps[..n], PairText);
      assert (front + [PrintedPair(ps[n])])[..|front|] == front;
      LabelOfPrinted(Denoted(ps[..n]), ps[n]);
    }
  }

  lemma LabelsRoundTrip(ps: seq<Pair>)
    requires Printable(ps)
    ensures LabelsOf(PrintedLabels(ps)) == Denoted(ps)
  {
    SplitOfPrinted(ps);
    LabelsOfPairs(ps);
  }

  lemma {:induction false} PrintedLabelsHaveNoBrace(ps: seq<Pair>)
    requires Printable(ps)
    ensures '}' !in PrintedLabels(ps)
  {
    if |ps| == 1 {
      assert ps[0] in ps;
    } else if |ps| > 1 {
      assert ps[|ps| - 1] in ps;
      PrintedLabelsHaveNoBrace(ps[..|ps| - 1]);
    }
  }

  lemma ValueField(token: string, rest: string)
    requires PrintableToken(token, rest)
    ensures FirstField(TrimSpace(" " + token + rest)).0 == token
  {
    var body := token + rest;
    assert " " + token + rest == " " + body && (" " + body)[1..] == body;
    assert TrimLeft(body) == body;
    assert Trimmed(body) by {
      assert rest != "" ==> body[|body| - 1] == rest[1..][|rest| - 2];
    }
    FieldOfToken(token, rest);
  }

  lemma TrimOneSpace(s: string)
    requires s != "" && !IsSpace(s[0])
    ensures TrimLeft(" " + s) == s && TrimLeft(s) == s
  {
    assert (" " + s)[1..] == s;
  }

  /** A line with braces is cut at the first of each. */
  lemma CutAtBraces(name: string, labels: string, tail: string)
    requires '{' !in name && '}' !in labels
    ensures ParsedLine(name + "{" + labels + "}" + tail) == ParsedTail(TrimSpace(name), LabelsOf(labels), tail)
  {
    var rest := labels + ['}'] + tail;
    var line := name + ['{'] + rest;
    assert line == name + "{" + labels + "}" + tail;
    IndexAfter(name, '{', rest);
    assert line[..|name|] == name && line[|name| + 1..] == rest;
    IndexAfter(labels, '}', tail);
    assert rest[..|labels|] == labels && rest[|labels| + 1..] == tail;
  }

  /** Round trip: parsing a printed sample line, with or without a timestamp, gives back
      its name, the map its labels denote, and the text of its value. */
  lemma LineRoundTrip(name: string, ps: seq<Pair>, token: string, rest: string)
    requires Trimmed(name) && '{' !in name && Printable(ps) && PrintableToken(token, rest)
    ensures ParsedLine(PrintedLine(name, ps, token, rest)) == Some(Parsed(name, Denoted(ps), token))
  {
    var labels, tail := PrintedLabels(ps), " " + token + rest;
    assert PrintedLine(name, ps, token, rest) == name + "{" + labels + "}" + tail;
    PrintedLabelsHaveNoBrace(ps);
    LabelsRoundTrip(ps);
    ValueField(token, rest);
    TrimmedIsFixed(name);
    CutAtBraces(name, labels, tail);
  }

  /** The same for a sample without labels. */
  lemma BareLineRoundTrip(name: string, token: string, rest: string)
    requires name != "" && NoSpace(name) && '{' !in name + " " + token + rest && PrintableToken(token, rest)
    ensures ParsedLine(name + " " + token + rest) == Some(Parsed(name, map[], token))
  {
    var tail := " " + token + rest;
    assert name + " " + token + rest == name + tail;
    FieldOfToken(name, tail);
    assert tail == " " + (token + rest);
    TrimOneSpace(token + rest);
    FieldOfToken(token, rest);
    TrimmedIsFixed(name);
  }
}
