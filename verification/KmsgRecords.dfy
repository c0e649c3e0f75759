/** parseKmsgXID (collectors_logs.go): folding kernel-log lines into records and
    records into XID events, over bytes that a bounded drain may have cut short anywhere,
    inside a UTF-8 sequence included. */
module KmsgRecords {
  import opened Prelude
  import opened Evidence
  import opened Text
  import opened BoundedRead

  // ---- lines, as bufio.Scanner cuts them

  function DropCR(s: string): string {
    if s != "" && s[|s| - 1] == '\r' then s[..|s| - 1] else s
  }

  /** The lines completed so far and the one being read. */
  datatype Cut = Cut(done: seq<string>, current: string)

  function CutAt(c: Cut, ch: char): Cut {
    if ch == '\n' then Cut(c.done + [DropCR(c.current)], "") else Cut(c.done, c.current + [ch])
  }

  function Finish(c: Cut): seq<string> {
    if c.current == "" then c.done else c.done + [DropCR(c.current)]
  }

  function Lines(text: string): seq<string> {
    Finish(FoldLeft(CutAt, Cut([], ""), text))
  }

  // ---- records, declared: a header line with the continuations that follow it

  predicate IsContinuation(line: string) {
    line != "" && (line[0] == ' ' || line[0] == '\t')
  }

  function Joined(header: string, cs: seq<string>): string {
    if cs == [] then header else Joined(header, cs[..|cs| - 1]) + " " + TrimBytes(cs[|cs| - 1])
  }

  /** A list of lines read from its end: the continuations that still want a header, and
      the records of the headers met. */
  datatype Grouped = Grouped(orphans: seq<string>, records: seq<string>)

  function Prepended(line: string, g: Grouped): Grouped {
    if IsContinuation(line) then Grouped([line] + g.orphans, g.records)
    else Grouped([], [Joined(line, g.orphans)] + g.records)
  }

  function Group(lines: seq<string>): Grouped {
    if lines == [] then Grouped([], []) else Prepended(lines[0], Group(lines[1..]))
  }

  /** Each header with the continuations that follow it; continuations before any header
      are dropped. */
  function Records(lines: seq<string>): seq<string> {
    Group(lines).records
  }

  // ---- events

  /** The regular expressions, as functions of a record: the XID number and the GPU
      uuid ("" if none) of a record that matches. */
  datatype XidMatch = XidMatch(xid: nat, uuid: string, severity: string)
  type Matcher = string -> Option<XidMatch>

  function EventOf(now: int, m: Matcher): string -> seq<XidEvent> {
    (raw: string) =>
      if raw == "" || m(raw).None? then []
      else [XidEvent(Some(now), m(raw).value.uuid, m(raw).value.xid, TrimBytes(raw), m(raw).value.severity)]
  }

  function Events(lines: seq<string>, now: int, m: Matcher): seq<XidEvent> {
    FlatMap(Records(lines), EventOf(now, m))
  }

  method Emit(events: seq<XidEvent>, raw: string, now: int, m: Matcher) returns (out: seq<XidEvent>)
    ensures out == events + EventOf(now, m)(raw)
  {
    out := events;
    if raw == "" {
      return;
    }
    var hit := m(raw);
    if hit.None? {
      return;
    }
    out := events + [XidEvent(Some(now), hit.value.uuid, hit.value.xid, TrimBytes(raw), hit.value.severity)];
  }

  /** The records are those flushed, and the one under construction if there is one. */
  ghost predicate Pending(records: seq<string>, flushed: seq<string>, have: bool, rec: string) {
    if have then records == flushed + [rec] else records == [] && flushed == []
  }

  lemma PendingContinues(records: seq<string>, flushed: seq<string>, have: bool, rec: string, line: string)
    requires Pending(records, flushed, have, rec) && IsContinuation(line)
    ensures Pending(Extended(records, line), flushed, have, if have then rec + " " + TrimBytes(line) else rec)
  {
  }

  lemma PendingFlushes(records: seq<string>, flushed: seq<string>, have: bool, rec: string, line: string)
    requires Pending(records, flushed, have, rec) && !IsContinuation(line)
    ensures Pending(Extended(records, line), if have then flushed + [rec] else flushed, true, line)
  {
  }

  /** Flushes the record under construction. */
  method Flush(events: seq<XidEvent>, rec: string, now: int, m: Matcher, ghost flushed: seq<string>)
    returns (out: seq<XidEvent>)
    requires events == FlatMap(flushed, EventOf(now, m))
    ensures out == FlatMap(flushed + [rec], EventOf(now, m))
  {
    FlatMapSnoc(flushed, rec, EventOf(now, m));
    out := Emit(events, rec, now, m);
  }

  /** The streaming parser: one record under construction, flushed at the next header. */
  method ParseKmsgXid(lines: seq<string>, now: int, m: Matcher) returns (events: seq<XidEvent>)
    ensures events == Events(lines, now, m)
    ensures EventsAre(Records(lines), now, m, events)
  {
    EventsAreExact(Records(lines), now, m);
    events := [];
    var rec, have := "", false;
    ghost var flushed: seq<string> := [];
    for i := 0 to |lines|
      invariant Pending(Records(lines[..i]), flushed, have, rec)
      invariant events == FlatMap(flushed, EventOf(now, m))
    {
      var line := lines[i];
      ghost var records := Records(lines[..i]);
      RecordsStep(lines[..i], line);
      assert lines[..i + 1] == lines[..i] + [line];
      if IsContinuation(line) {
        PendingContinues(records, flushed, have, rec, line);
        if have {
          rec := rec + " " + TrimBytes(line);
        }
        continue;
      }
      PendingFlushes(records, flushed, have, rec, line);
      if have {
        events := Flush(events, rec, now, m, flushed);
        flushed := flushed + [rec];
      }
      rec, have := line, true;
    }
    assert lines[..|lines|] == lines;
    if have {
      events := Flush(events, rec, now, m, flushed);
    }
  }

  lemma FlatMapSnoc<T, U>(s: seq<T>, x: T, f: T -> seq<U>)
    ensures FlatMap(s + [x], f) == FlatMap(s, f) + f(x)
  {
    assert (s + [x])[..|s|] == s;
  }

  // ---- the declared split, one line at a time

  /** The records after one more line. */
  function Extended(records: seq<string>, line: string): seq<string> {
    if !IsContinuation(line) then records + [line]
    else if records == [] then []
    else records[|records| - 1 := records[|records| - 1] + " " + TrimBytes(line)]
  }

  function Appended(g: Grouped, line: string): Grouped {
    Grouped(g.orphans + if g.records == [] && IsContinuation(line) then [line] else [], Extended(g.records, line))
  }

  lemma PrependAppend(first: string, g: Grouped, line: string)
    ensures Prepended(first, Appended(g, line)) == Appended(Prepended(first, g), line)
  {
    JoinedStep(first, g.orphans, line);
    if g.records == [] && IsContinuation(line) {
      assert [first] + (g.orphans + [line]) == [first] + g.orphans + [line];
    } else {
      ExtendedOnRight([Joined(first, g.orphans)], g.records, line);
      assert g.orphans + [] == g.orphans && [first] + g.orphans + [] == [first] + g.orphans;
    }
  }

  lemma {:induction false} GroupStep(lines: seq<string>, line: string)
    ensures Group(lines + [line]) == Appended(Group(lines), line)
  {
    if lines == [] {
      assert [line][1..] == [] && Joined(line, []) == line;
    } else {
      assert (lines + [line])[1..] == lines[1..] + [line];
      GroupStep(lines[1..], line);
      PrependAppend(lines[0], Group(lines[1..]), line);
    }
  }

  lemma RecordsStep(lines: seq<string>, line: string)
    ensures Records(lines + [line]) == Extended(Records(lines), line)
  {
    GroupStep(lines, line);
  }

  lemma JoinedStep(h: string, cs: seq<string>, line: string)
    ensures Joined(h, cs + [line]) == Joined(h, cs) + " " + TrimBytes(line)
  {
    assert (cs + [line])[..|cs|] == cs;
  }

  // ---- what lines, records and events are

  /** Lines end at a newline, which they lose along with one carriage return before it; the
      text after the last newline is a line unless empty. */
  lemma LinesAreCutAtNewlines(line: string, rest: string)
    requires '\n' !in line
    ensures var bare := if line != "" && line[|line| - 1] == '\r' then line[..|line| - 1] else line;
            && Lines(line + "\n" + rest) == [bare] + Lines(rest)
            && Lines(line) == if line == "" then [] else [bare]
  {
    Unbroken(line);
    var ended := line + "\n";
    assert ended[..|line|] == line;
    assert CutOf(ended) == Cut([DropCR(line)], "");
    FoldLeftConcat(CutAt, Cut([], ""), ended, rest);
    CutShift([DropCR(line)], rest);
  }

  lemma {:induction false} Unbroken(line: string)
    requires '\n' !in line
    ensures CutOf(line) == Cut([], line)
  {
    if line != "" {
      Unbroken(line[..|line| - 1]);
    }
  }

  /** A line that begins with a blank or a tab is added, trimmed and after a blank, to the
      last record, and lost if there is none; any other line begins a record. */
  lemma RecordsByLine(lines: seq<string>, line: string)
    ensures Records([]) == []
    ensures var rs := Records(lines);
            Records(lines + [line])
            == if line == "" || line[0] !in {' ', '\t'} then rs + [line]
               else if rs == [] then []
               else rs[..|rs| - 1] + [rs[|rs| - 1] + " " + TrimBytes(line)]
  {
    RecordsStep(lines, line);
  }

  /** One event for each non-empty record that matches, in order, and no other: the match's
      number, device and severity, the given time and the trimmed record. */
  ghost predicate EventsAre(records: seq<string>, now: int, m: Matcher, events: seq<XidEvent>) {
    var hits := Select(records, raw => raw != "" && m(raw).Some?);
    && |events| == |hits|
    && forall i :: 0 <= i < |hits| ==>
         && m(hits[i]).Some?
         && events[i].xid == m(hits[i]).value.xid
         && events[i].deviceUuid == m(hits[i]).value.uuid
         && events[i].severity == m(hits[i]).value.severity
         && events[i].ts == Some(now)
         && events[i].raw == TrimBytes(hits[i])
  }

  lemma {:induction false} EventsAreExact(records: seq<string>, now: int, m: Matcher)
    ensures EventsAre(records, now, m, FlatMap(records, EventOf(now, m)))
  {
    if records != [] {
      EventsAreExact(records[..|records| - 1], now, m);
    }
  }

  // ---- truncation and concatenation

  /** Later lines can only lengthen the last record or add records after it. */
  ghost predicate Continues(records: seq<string>, more: seq<string>) {
    && |records| <= |more|
    && forall i :: 0 <= i < |records| ==> if i < |records| - 1 then records[i] == more[i] else records[i] <= more[i]
  }

  lemma {:induction false} RecordsContinue(a: seq<string>, b: seq<string>)
    ensures Continues(Records(a), Records(a + b))
  {
    if b == [] {
      assert a + b == a;
    } else {
      var n := |b| - 1;
      RecordsContinue(a, b[..n]);
      RecordsStep(a + b[..n], b[n]);
      assert a + b == (a + b[..n]) + [b[n]];
    }
  }

  /** Parsing is a homomorphism where the second part starts with a header. */
  lemma {:induction false} RecordsConcat(a: seq<string>, b: seq<string>)
    requires b == [] || !IsContinuation(b[0])
    ensures Records(a + b) == Records(a) + Records(b)
  {
    if b == [] {
      assert a + b == a;
    } else {
      var n := |b| - 1;
      var front, last := b[..n], b[n];
      RecordsConcat(a, front);
      RecordsStep(a + front, last);
      RecordsStep(front, last);
      assert a + b == (a + front) + [last] && b == front + [last];
      if front != [] {
        HeaderHasRecord(front);
      }
      ExtendedOnRight(Records(a), Records(front), last);
    }
  }

  lemma HeaderHasRecord(lines: seq<string>)
    requires lines != [] && !IsContinuation(lines[0])
    ensures Records(lines) != []
  {
  }

  lemma ExtendedOnRight(xs: seq<string>, ys: seq<string>, line: string)
    ensures ys != [] || !IsContinuation(line) ==> Extended(xs + ys, line) == xs + Extended(ys, line)
  {
  }

  /** Completed lines stay, and the line being read is completed or grows. */
  ghost predicate CutGrows(c: Cut, d: Cut) {
    && c.done <= d.done
    && if d.done == c.done then c.current <= d.current
       else exists rest :: d.done[|c.done|] == DropCR(c.current + rest)
  }

  lemma {:induction false} CutExtends(c: Cut, text: string)
    ensures CutGrows(c, FoldLeft(CutAt, c, text))
  {
    if text != "" {
      var n := |text| - 1;
      CutExtends(c, text[..n]);
      CutOneMore(c, FoldLeft(CutAt, c, text[..n]), text[n]);
    }
  }

  lemma CutOneMore(c: Cut, e: Cut, ch: char)
    requires CutGrows(c, e)
    ensures CutGrows(c, CutAt(e, ch))
  {
    if ch == '\n' && e.done == c.done {
      assert e.current == c.current + e.current[|c.current|..];
    }
  }

  function CutOf(text: string): Cut {
    FoldLeft(CutAt, Cut([], ""), text)
  }

  lemma CutOfMore(p: string, t: string)
    ensures CutGrows(CutOf(p), CutOf(p + t))
  {
    FoldLeftConcat(CutAt, Cut([], ""), p, t);
    CutExtends(CutOf(p), t);
  }

  lemma HeadDecidesContinuation(line: string, rest: string)
    requires line != ""
    ensures IsContinuation(DropCR(line)) <==> IsContinuation(DropCR(line + rest))
  {
  }

  /** The line being read, if any. */
  function Unfinished(c: Cut): seq<string> {
    if c.current == "" then [] else [DropCR(c.current)]
  }

  lemma FinishParts(c: Cut)
    ensures Finish(c) == c.done + Unfinished(c)
  {
    assert c.done + [] == c.done;
  }

  /** Of the completed lines nothing changes. */
  lemma CompletedStay(c: Cut, d: Cut) returns (rest: seq<string>)
    requires c.done <= d.done
    ensures Finish(d) == c.done + rest && rest == Finish(d)[|c.done|..]
  {
    FinishParts(d);
    rest := Finish(d)[|c.done|..];
    assert Finish(d)[..|c.done|] == c.done;
  }

  /** A line cut short keeps its place and its kind. */
  lemma UnfinishedLine(c: Cut, d: Cut)
    requires c.current != "" && CutGrows(c, d)
    ensures |c.done| < |Finish(d)| && (IsContinuation(DropCR(c.current)) <==> IsContinuation(Finish(d)[|c.done|]))
  {
    if d.done == c.done {
      var more := d.current[|c.current|..];
      assert d.current == c.current + more;
      HeadDecidesContinuation(c.current, more);
    } else {
      var more :| d.done[|c.done|] == DropCR(c.current + more);
      HeadDecidesContinuation(c.current, more);
    }
  }

  /** Whatever follows, a text's lines stay, but for an unfinished last one, which may grow
      without turning from header to continuation or back. */
  lemma LinesContinue(p: string, t: string) returns (full: seq<string>, last: seq<string>, rest: seq<string>)
    ensures Lines(p) == full + last && Lines(p + t) == full + rest && |last| <= 1
    ensures last != [] ==> rest != [] && (IsContinuation(last[0]) <==> IsContinuation(rest[0]))
  {
    var c, d := CutOf(p), CutOf(p + t);
    CutOfMore(p, t);
    FinishParts(c);
    full, last := c.done, Unfinished(c);
    rest := CompletedStay(c, d);
    if c.current != "" {
      UnfinishedLine(c, d);
    }
  }

  function AllButLast<T>(s: seq<T>): seq<T> {
    if s == [] then [] else s[..|s| - 1]
  }

  /** Truncation stability: cut the log at any byte and every record of what is left, but
      the last, is a record of the whole log, at the same place. */
  lemma TruncatedRecordsAreStable(p: string, t: string)
    ensures AllButLast(Records(Lines(p))) <= Records(Lines(p + t))
  {
    var full, last, rest := LinesContinue(p, t);
    TruncatedAt(full, last, rest);
  }

  lemma TruncatedAt(full: seq<string>, last: seq<string>, rest: seq<string>)
    requires |last| <= 1
    requires last != [] ==> rest != [] && (IsContinuation(last[0]) <==> IsContinuation(rest[0]))
    ensures AllButLast(Records(full + last)) <= Records(full + rest)
  {
    RecordsContinue(full, rest);
    if last == [] {
      assert full + last == full;
    } else {
      assert full + last == full + [last[0]];
      RecordsStep(full, last[0]);
      if !IsContinuation(last[0]) {
        RecordsConcat(full, rest);
      }
    }
  }

  /** Hence only the events of the final record can differ, and that is at most one. */
  lemma TruncatedEventsAreStable(p: string, t: string, now: int, m: Matcher)
    ensures var rs := Records(Lines(p));
            && FlatMap(AllButLast(rs), EventOf(now, m)) <= Events(Lines(p + t), now, m)
            && (rs != [] ==> Events(Lines(p), now, m)
                             == FlatMap(AllButLast(rs), EventOf(now, m)) + EventOf(now, m)(rs[|rs| - 1]))
            && |Events(Lines(p), now, m)| <= |FlatMap(AllButLast(rs), EventOf(now, m))| + 1
  {
    TruncatedRecordsAreStable(p, t);
    var kept, all := AllButLast(Records(Lines(p))), Records(Lines(p + t));
    assert all == kept + all[|kept|..];
    FlatMapConcat(kept, all[|kept|..], EventOf(now, m));
  }

  function Shifted(done: seq<string>, c: Cut): Cut { Cut(done + c.done, c.current) }

  lemma CutAtShifts(done: seq<string>, c: Cut, ch: char)
    ensures CutAt(Shifted(done, c), ch) == Shifted(done, CutAt(c, ch))
  {
    if ch == '\n' {
      assert done + c.done + [DropCR(c.current)] == done + (c.done + [DropCR(c.current)]);
    }
  }

  lemma {:induction false} CutShift(done: seq<string>, text: string)
    ensures FoldLeft(CutAt, Cut(done, ""), text) == Shifted(done, FoldLeft(CutAt, Cut([], ""), text))
  {
    if text == "" {
      assert done + [] == done;
    } else {
      var n := |text| - 1;
      CutShift(done, text[..n]);
      CutAtShifts(done, FoldLeft(CutAt, Cut([], ""), text[..n]), text[n]);
    }
  }

  /** Two logs of which the first ends its last line and the second opens with a header
      (or is empty) yield together what they yield apart. */
  lemma EventsOfTwoLogs(p: string, t: string, now: int, m: Matcher)
    requires p == "" || p[|p| - 1] == '\n'
    requires Lines(t) == [] || !IsContinuation(Lines(t)[0])
    ensures Events(Lines(p + t), now, m) == Events(Lines(p), now, m) + Events(Lines(t), now, m)
  {
    var c := FoldLeft(CutAt, Cut([], ""), p);
    assert c.current == "";
    FoldLeftConcat(CutAt, Cut([], ""), p, t);
    CutShift(c.done, t);
    assert Lines(p + t) == Lines(p) + Lines(t);
    RecordsConcat(Lines(p), Lines(t));
    FlatMapConcat(Records(Lines(p)), Records(Lines(t)), EventOf(now, m));
  }

  /** The two together: drain a stream within its bounds and parse what came. However the
      drain ended, all events but those of its final record are events of the stream. */
  method CollectKmsg(env: Environment, c: Config, now: int, m: Matcher, ghost stream: string, ghost horizon: nat)
    returns (events: seq<XidEvent>, res: DrainResult)
    requires RespectsBuffer(env) && Advances(env, c, horizon)
    requires forall k: nat :: Delivered(env, c, k) <= stream
    ensures exists k: nat :: k <= horizon && events == Events(Lines(Delivered(env, c, k)), now, m)
                             && EventsAre(Records(Lines(Delivered(env, c, k))), now, m, events)
                             && |Delivered(env, c, k)| == res.bytes
    ensures exists n :: |events| - 1 <= n <= |events| && n >= 0 && events[..n] <= Events(Lines(stream), now, m)
  {
    var buf, r, calls := BoundedReadStream(env, c, horizon);
    res := r;
    events := ParseKmsgXid(Lines(buf), now, m);
    ghost var rest := stream[|buf|..];
    assert stream == buf + rest;
    TruncatedEventsAreStable(buf, rest, now, m);
    ghost var n := |FlatMap(AllButLast(Records(Lines(buf))), EventOf(now, m))|;
    assert Records(Lines(buf)) == [] ==> events == [];
    assert events[..n] <= Events(Lines(stream), now, m);
  }
}
