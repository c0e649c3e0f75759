/** The directive escalation loop (internal/investigate/client.go) against an arbitrary
    server and an arbitrary executor. */
module Investigate {
  import opened Prelude
  import opened Evidence
  import opened Directives

  const MAX_ROUNDS: nat := 3

  /** What the host offers and what its operator enabled. */
  datatype Host = Host(catalog: seq<Capability>, consent: Consent)

  /** What a POST yields: a transport error, or a response with its verdict (nil-able)
      and follow-up directives (nil-able each). */
  datatype PostResult = PostFailed | Response(verdict: Option<Verdict>, directives: seq<Option<CollectDirective>>)

  /** What an execution yields: an error, or entries (nil-able each). */
  type ExecResult = Result<seq<Option<TimelineEntry>>, Error>

  /** The server and the executor may answer differently every time: server(i, t) is the
      answer to the i-th post, carrying timeline t; run(i, d) that to the i-th execution. */
  type Server = (nat, seq<TimelineEntry>) -> PostResult
  type Executor = (nat, CollectDirective) -> ExecResult

  datatype World = World(server: Server, executor: Option<Executor>)

  function Present(e: Option<TimelineEntry>): seq<TimelineEntry> { if e.Some? then [e.value] else [] }

  function EntriesOf(r: ExecResult): seq<TimelineEntry> {
    if r.Err? then [] else FlatMap(r.value, Present)
  }

  function Vet(h: Host, d: Option<CollectDirective>): seq<CollectDirective> {
    var r := Validate(h.catalog, d, h.consent);
    if r.Ok? then [r.value.safe] else []
  }

  /** The directives that pass the host's own checks, in order. */
  function VetAll(h: Host, ds: seq<Option<CollectDirective>>): seq<CollectDirective> {
    if ds == [] then [] else VetAll(h, ds[..|ds| - 1]) + Vet(h, ds[|ds| - 1])
  }

  /** What acting on directives does: the entries it adds, the directives it runs. */
  datatype Acted = Acted(added: seq<TimelineEntry>, ran: seq<CollectDirective>)

  /** What acting on one directive does, n executions after the start. */
  type Act = (nat, Option<CollectDirective>) -> Acted

  /** Host h in world w: a directive that passes is run, if there is an executor. */
  function ActOnOne(h: Host, w: World, n: nat, d: Option<CollectDirective>): Acted {
    var vs := Vet(h, d);
    if vs == [] || w.executor.None? then Acted([], [])
    else Acted(EntriesOf(w.executor.value(n, vs[0])), vs)
  }

  /** act is what h does in w. */
  ghost predicate ActsAs(act: Act, h: Host, w: World, n: nat, d: Option<CollectDirective>) {
    act(n, d) == ActOnOne(h, w, n, d)
  }

  function ActOf(h: Host, w: World): (act: Act)
    ensures forall n, d :: ActsAs(act, h, w, n, d)
  {
    (n: nat, d: Option<CollectDirective>) => ActOnOne(h, w, n, d)
  }

  /** Acting on the directives of an answer, one after the other. */
  function ActOn(act: Act, n: nat, ds: seq<Option<CollectDirective>>): Acted {
    if ds == [] then Acted([], [])
    else
      var a := ActOn(act, n, ds[..|ds| - 1]);
      Then(a, act(n + |a.ran|, ds[|ds| - 1]))
  }

  function Then(a: Acted, b: Acted): Acted {
    Acted(a.added + b.added, a.ran + b.ran)
  }

  lemma ThenAppends<T>(s: seq<T>, a: seq<T>, b: seq<T>)
    ensures s + (a + b) == s + a + b
  {
  }

  lemma ActOnStep(act: Act, n: nat, ds: seq<Option<CollectDirective>>, i: nat)
    requires i < |ds|
    ensures var a := ActOn(act, n, ds[..i]);
            ActOn(act, n, ds[..i + 1]) == Then(a, act(n + |a.ran|, ds[i]))
  {
    assert ds[..i + 1][..i] == ds[..i];
  }

  /** Run are exactly the directives that pass, in the server's order. */
  lemma {:induction false} RanAreTheVetted(h: Host, w: World, act: Act, n: nat, ds: seq<Option<CollectDirective>>)
    requires forall m, d :: ActsAs(act, h, w, m, d)
    ensures ActOn(act, n, ds).ran == if w.executor.Some? then VetAll(h, ds) else []
  {
    if ds != [] {
      var k := |ds| - 1;
      RanAreTheVetted(h, w, act, n, ds[..k]);
      assert ActsAs(act, h, w, n + |ActOn(act, n, ds[..k]).ran|, ds[k]);
    }
  }

  // ---- the whole escalation, as a function of what server and executor do

  /** The timelines posted, the directives executed, and what is returned. */
  datatype Outcome = Outcome(posts: seq<seq<TimelineEntry>>, executed: seq<CollectDirective>,
                             verdict: Option<Verdict>, failed: bool)

  /** What one round does: the verdict to return or to go on with, and what was acted. */
  datatype RoundResult = RoundResult(verdict: Option<Verdict>, stop: bool, failed: bool, acted: Acted)

  function RoundOf(server: Server, act: Act, k: nat, n: nat, t: seq<TimelineEntry>,
                   last: Option<Verdict>): RoundResult {
    var r := server(k, t);
    if r.PostFailed? || r.verdict.None? then RoundResult(last, true, true, Acted([], []))
    else if !AsksForMore(r) then RoundResult(r.verdict, true, false, Acted([], []))
    else
      var a := ActOn(act, n, r.directives);
      RoundResult(r.verdict, a.added == [], false, a)
  }

  /** An ABSTAIN that comes with directives. */
  predicate AsksForMore(r: PostResult) {
    r.Response? && r.verdict.Some? && r.verdict.value.faultClass == Abstain && r.directives != []
  }

  /** The rounds, as a function of posts and executions so far, timeline and last verdict. */
  type Rounds = (nat, nat, seq<TimelineEntry>, Option<Verdict>) -> RoundResult

  ghost predicate RoundAs(rounds: Rounds, server: Server, act: Act, k: nat, n: nat, t: seq<TimelineEntry>,
                          last: Option<Verdict>) {
    rounds(k, n, t, last) == RoundOf(server, act, k, n, t, last)
  }

  /** rounds is what server and act make of them. */
  ghost predicate RoundsOf(rounds: Rounds, server: Server, act: Act) {
    forall k, n, t, last :: RoundAs(rounds, server, act, k, n, t, last)
  }

  function MakeRounds(server: Server, act: Act): (rounds: Rounds)
    ensures RoundsOf(rounds, server, act)
  {
    (k: nat, n: nat, t: seq<TimelineEntry>, last: Option<Verdict>) => RoundOf(server, act, k, n, t, last)
  }

  /** The escalation with `left` rounds left: k posts and n executions lie behind it, the
      running timeline is t and the last verdict `last`. */
  function Escalate(rounds: Rounds, k: nat, n: nat, left: nat, t: seq<TimelineEntry>, last: Option<Verdict>): Outcome
    decreases left
  {
    if left == 0 then Outcome([], [], last, false)
    else
      var s := rounds(k, n, t, last);
      if s.stop then Outcome([t], s.acted.ran, s.verdict, s.failed)
      else
        var o := Escalate(rounds, k + 1, n + |s.acted.ran|, left - 1, t + s.acted.added, s.verdict);
        Outcome([t] + o.posts, s.acted.ran + o.executed, o.verdict, o.failed)
  }

  /** The escalation as a value, so that the loop can be followed one round at a time. */
  type Escalation = (nat, nat, nat, seq<TimelineEntry>, Option<Verdict>) -> Outcome

  ghost predicate EscalatesAs(esc: Escalation, rounds: Rounds, k: nat, n: nat, left: nat, t: seq<TimelineEntry>,
                              last: Option<Verdict>) {
    esc(k, n, left, t, last) == Escalate(rounds, k, n, left, t, last)
  }

  ghost predicate IsEscalation(esc: Escalation, rounds: Rounds) {
    forall k, n, left, t, last :: EscalatesAs(esc, rounds, k, n, left, t, last)
  }

  lemma EscalationOf(rounds: Rounds) returns (esc: Escalation)
    ensures IsEscalation(esc, rounds)
  {
    esc := (k: nat, n: nat, left: nat, t: seq<TimelineEntry>, last: Option<Verdict>) => Escalate(rounds, k, n, left, t, last);
  }

  lemma NoRoundsLeft(esc: Escalation, rounds: Rounds, k: nat, n: nat, t: seq<TimelineEntry>, last: Option<Verdict>)
    requires IsEscalation(esc, rounds)
    ensures esc(k, n, 0, t, last) == Outcome([], [], last, false)
  {
    assert EscalatesAs(esc, rounds, k, n, 0, t, last);
  }

  /** The outcome o with what was posted and executed before it. */
  function After(posts: seq<seq<TimelineEntry>>, executed: seq<CollectDirective>, o: Outcome): Outcome {
    o.(posts := posts + o.posts, executed := executed + o.executed)
  }

  lemma AfterRound(esc: Escalation, rounds: Rounds, k: nat, n: nat, left: nat, t: seq<TimelineEntry>,
                   last: Option<Verdict>, posts: seq<seq<TimelineEntry>>, executed: seq<CollectDirective>)
    requires IsEscalation(esc, rounds) && left > 0
    ensures var s := rounds(k, n, t, last);
            var posts', executed' := posts + [t], executed + s.acted.ran;
            After(posts, executed, esc(k, n, left, t, last))
            == if s.stop then Outcome(posts', executed', s.verdict, s.failed)
               else After(posts', executed', esc(k + 1, n + |s.acted.ran|, left - 1, t + s.acted.added, s.verdict))
  {
    assert EscalatesAs(esc, rounds, k, n, left, t, last);
    var s := rounds(k, n, t, last);
    assert s.stop || EscalatesAs(esc, rounds, k + 1, n + |s.acted.ran|, left - 1, t + s.acted.added, s.verdict);
  }

  /** An evidence pack as the loop sees it: a timeline behind a pointer. */
  class Pack {
    var timeline: seq<TimelineEntry>

    constructor (timeline: seq<TimelineEntry>)
      ensures this.timeline == timeline
    {
      this.timeline := timeline;
    }

    method Clone() returns (p: Pack)
      ensures fresh(p) && p.timeline == timeline
    {
      p := new Pack(timeline);
    }
  }

  class Client {
    const host: Host
    const world: World

    /** How often the world was consulted, and with what. */
    var postCount: nat
    var execCount: nat
    ghost var posts: seq<seq<TimelineEntry>>
    ghost var executed: seq<CollectDirective>

    /** What this host does about directives in this world, and what its rounds are. */
    ghost const act: Act
    ghost const rounds: Rounds

    ghost predicate Described() {
      && (forall n, d :: ActsAs(act, host, world, n, d))
      && RoundsOf(rounds, world.server, act)
    }

    ghost predicate Valid()
      reads this
    {
      && postCount == |posts| && execCount == |executed|
    }

    constructor (consent: Consent, world: World)
      ensures Valid() && Described() && Budgeted(host.catalog) && posts == [] && executed == []
      ensures host == Host(CATALOG, consent) && this.world == world
    {
      CatalogIsBudgeted();
      this.host, this.world := Host(CATALOG, consent), world;
      this.act := ActOf(Host(CATALOG, consent), world);
      this.rounds := MakeRounds(world.server, ActOf(Host(CATALOG, consent), world));
      postCount, execCount, posts, executed := 0, 0, [], [];
    }

    method Post(pack: Pack) returns (r: PostResult)
      requires Valid()
      modifies `posts, `postCount
      ensures Valid() && posts == old(posts) + [pack.timeline]
      ensures r == world.server(old(postCount), pack.timeline)
    {
      r := world.server(postCount, pack.timeline);
      posts, postCount := posts + [pack.timeline], postCount + 1;
    }

    /** Appends the entries an execution observed; nil ones are skipped. */
    method AppendEntries(pack: Pack, entries: seq<Option<TimelineEntry>>) returns (added: nat)
      modifies pack
      ensures pack.timeline == old(pack.timeline) + FlatMap(entries, Present)
      ensures added == |FlatMap(entries, Present)|
    {
      added := 0;
      for j := 0 to |entries|
        invariant pack.timeline == old(pack.timeline) + FlatMap(entries[..j], Present)
        invariant added == |FlatMap(entries[..j], Present)|
      {
        FlatMapStep(entries, Present, j);
        if entries[j].Some? {
          pack.timeline := pack.timeline + [entries[j].value];
          added := added + 1;
        }
      }
      FlatMapWhole(entries, Present);
    }

    /** Runs one directive, if it passes. */
    method ExecuteOne(pack: Pack, d: Option<CollectDirective>) returns (added: nat)
      requires Valid() && Described()
      modifies pack, `executed, `execCount
      ensures Valid()
      ensures var a := act(old(execCount), d);
              && executed == old(executed) + a.ran
              && pack.timeline == old(pack.timeline) + a.added && added == |a.added|
    {
      assert ActsAs(act, host, world, execCount, d);
      if d.None? {
        return 0;
      }
      var vetted := Validate(host.catalog, d, host.consent);
      if vetted.Err? || world.executor.None? {
        return 0;
      }
      var safe := vetted.value.safe;
      var r := world.executor.value(execCount, safe);
      executed, execCount := executed + [safe], execCount + 1;
      if r.Err? {
        return 0;
      }
      added := AppendEntries(pack, r.value);
    }

    /** Runs one more directive after a was done. */
    method ExecuteNext(pack: Pack, d: Option<CollectDirective>, sofar: nat, ghost timeline0: seq<TimelineEntry>,
                       ghost executed0: seq<CollectDirective>, ghost a: Acted)
      returns (added: nat)
      requires Valid() && Described() && Did(pack, timeline0, executed0, sofar, a)
      modifies pack, `executed, `execCount
      ensures Valid()
      ensures Did(pack, timeline0, executed0, added, Then(a, act(|executed0| + |a.ran|, d)))
    {
      ghost var b := act(|executed0| + |a.ran|, d);
      var more := ExecuteOne(pack, d);
      added := sofar + more;
      ThenAppends(timeline0, a.added, b.added);
      ThenAppends(executed0, a.ran, b.ran);
    }

    /** Runs the directives that pass, appending what they observe to the pack. */
    method ExecuteDirectives(pack: Pack, directives: seq<Option<CollectDirective>>) returns (added: nat)
      requires Valid() && Described()
      modifies pack, `executed, `execCount
      ensures Valid()
      ensures Did(pack, old(pack.timeline), old(executed), added, ActOn(act, old(execCount), directives))
    {
      added := 0;
      ghost var n, timeline0, executed0, a := execCount, pack.timeline, executed, Acted([], []);
      for i := 0 to |directives|
        invariant Valid() && n == |executed0|
        invariant a == ActOn(act, n, directives[..i])
        invariant Did(pack, timeline0, executed0, added, a)
      {
        ActOnStep(act, n, directives, i);
        added := ExecuteNext(pack, directives[i], added, timeline0, executed0, a);
        a := Then(a, act(n + |a.ran|, directives[i]));
      }
      assert directives[..|directives|] == directives;
    }

    /** Since the pack read timeline0 and executed was executed0, exactly a was done. */
    ghost predicate Did(pack: Pack, timeline0: seq<TimelineEntry>, executed0: seq<CollectDirective>, added: nat,
                        a: Acted)
      reads this, pack
    {
      executed == executed0 + a.ran && pack.timeline == timeline0 + a.added && added == |a.added|
    }

    /** One round: post, and act on what is asked. The loop ends with verdict and failed
        when stop is set; otherwise the pack has grown. */
    method Round(running: Pack, last: Option<Verdict>) returns (verdict: Option<Verdict>, stop: bool, failed: bool)
      requires Valid() && Described()
      modifies running, `posts, `postCount, `executed, `execCount
      ensures Valid()
      ensures posts == old(posts) + [old(running.timeline)]
      ensures var s := rounds(old(postCount), old(execCount), old(running.timeline), last);
              && executed == old(executed) + s.acted.ran && running.timeline == old(running.timeline) + s.acted.added
              && s.verdict == verdict && s.stop == stop && s.failed == failed
    {
      assert RoundAs(rounds, world.server, act, postCount, execCount, running.timeline, last);
      var r := Post(running);
      if r.PostFailed? || r.verdict.None? {
        return last, true, true;
      }
      verdict := r.verdict;
      if verdict.value.faultClass != Abstain {
        return verdict, true, false;
      }
      if r.directives == [] {
        return verdict, true, false;
      }
      var added := ExecuteDirectives(running, r.directives);
      return verdict, added == 0, false;
    }

    /** Escalates from the caller's pack, which is not written: the rounds work on a clone.
        What was posted, executed and returned keeps every promise. */
    method Investigate(pack: Pack) returns (verdict: Option<Verdict>, failed: bool)
      requires Valid() && Described() && Budgeted(host.catalog)
      modifies `posts, `postCount, `executed, `execCount
      ensures Valid() && old(posts) <= posts && old(executed) <= executed
      ensures Promised(host, world, act, old(postCount), old(execCount), pack.timeline,
                       Outcome(posts[|old(posts)|..], executed[|old(executed)|..], verdict, failed))
    {
      ghost var o := Escalate(rounds, postCount, execCount, MAX_ROUNDS, pack.timeline, None);
      EscalationIsPromised(host, world, act, rounds, postCount, execCount, pack.timeline);
      verdict, failed := Drive(pack);
      assert posts[|old(posts)|..] == o.posts && executed[|old(executed)|..] == o.executed;
      assert Outcome(posts[|old(posts)|..], executed[|old(executed)|..], verdict, failed) == o;
    }

    /** Drives the rounds. */
    method Drive(pack: Pack) returns (verdict: Option<Verdict>, failed: bool)
      requires Valid() && Described()
      modifies `posts, `postCount, `executed, `execCount
      ensures Valid()
      ensures Outcome(posts, executed, verdict, failed)
              == After(old(posts), old(executed),
                       Escalate(rounds, old(postCount), old(execCount), MAX_ROUNDS, pack.timeline, None))
    {
      ghost var esc := EscalationOf(rounds);
      assert EscalatesAs(esc, rounds, postCount, execCount, MAX_ROUNDS, pack.timeline, None);
      ghost var whole := After(posts, executed, esc(postCount, execCount, MAX_ROUNDS, pack.timeline, None));
      var running := pack.Clone();
      verdict := None;
      for round := 0 to MAX_ROUNDS
        invariant Valid() && Described() && fresh(running)
        invariant whole == After(posts, executed, esc(postCount, execCount, MAX_ROUNDS - round, running.timeline, verdict))
      {
        AfterRound(esc, rounds, postCount, execCount, MAX_ROUNDS - round, running.timeline, verdict, posts, executed);
        var stop;
        verdict, stop, failed := Round(running, verdict);
        if stop {
          return verdict, failed;
        }
      }
      NoRoundsLeft(esc, rounds, postCount, execCount, running.timeline, verdict);
      failed := false;
    }
  }

  // ---- what the escalation promises, whatever server and executor do

  /** What a round tells: it goes on only after an ABSTAIN with directives whose execution
      added something; it fails only for want of a verdict, returning the last one. */
  lemma RoundMeans(rounds: Rounds, server: Server, act: Act, k: nat, n: nat, t: seq<TimelineEntry>,
                   last: Option<Verdict>)
    requires RoundsOf(rounds, server, act)
    ensures var s, r := rounds(k, n, t, last), server(k, t);
            && (if s.failed then s.stop && !HasVerdict(r) && s.verdict == last
                else HasVerdict(r) && s.verdict == r.verdict)
            && (!s.stop ==> AsksForMore(r) && s.acted.added != [])
            && (s.stop && AsksForMore(r) ==> AddsNothing(act, n, r.directives, s.acted.ran))
  {
    assert RoundAs(rounds, server, act, k, n, t, last);
  }

  /** All that is promised of an escalation that starts at post k, execution n and timeline
      t: it goes by rounds; at most three posts, growing from t; nothing unsafe executed; an honest verdict; and
      a reason to stop. */
  ghost predicate Promised(h: Host, w: World, act: Act, k: nat, n: nat, t: seq<TimelineEntry>, o: Outcome) {
    && (exists cuts :: InRounds(h, w, k, n, 3, o, cuts))
    && |o.posts| <= 3 && GrowsFrom(t, o.posts)
    && AllSafe(h, o.executed)
    && Honest(w.server, k, o, None)
    && Spent(w.server, act, k, n, 3, o)
  }

  // ---- each round, in terms of the server's answer and the executor's

  /** The entries, nil ones included, of an execution; none if it failed. */
  function Entries(r: ExecResult): seq<Option<TimelineEntry>> {
    match r case Ok(entries) => entries case Err(_) => []
  }

  /** What the executions of ds brought, the first of them the n-th. */
  function Brought(executor: Option<Executor>, n: nat, ds: seq<CollectDirective>): seq<Option<TimelineEntry>> {
    if ds == [] || executor.None? then []
    else
      var last := |ds| - 1;
      Brought(executor, n, ds[..last]) + Entries(executor.value(n + last, ds[last]))
  }

  lemma BroughtByOneMore(executor: Executor, n: nat, ds: seq<CollectDirective>, d: CollectDirective)
    ensures Brought(Some(executor), n, ds + [d])
            == Brought(Some(executor), n, ds) + Entries(executor(n + |ds|, d))
  {
    assert (ds + [d])[..|ds|] == ds;
  }

  predicate IsPresent(e: Option<TimelineEntry>) { e.Some? }

  /** The entries that are not nil, in order. */
  function NonNil(all: seq<Option<TimelineEntry>>): seq<Option<TimelineEntry>> {
    Select(all, IsPresent)
  }

  /** es are the entries of all that are not nil, in order. */
  ghost predicate AreNonNil(all: seq<Option<TimelineEntry>>, es: seq<TimelineEntry>) {
    |es| == |NonNil(all)| && forall i :: 0 <= i < |es| ==> NonNil(all)[i] == Some(es[i])
  }

  lemma NonNilConcat(a: seq<Option<TimelineEntry>>, b: seq<Option<TimelineEntry>>, es: seq<TimelineEntry>,
                     fs: seq<TimelineEntry>)
    requires AreNonNil(a, es) && AreNonNil(b, fs)
    ensures AreNonNil(a + b, es + fs)
  {
    SelectConcat(a, b, IsPresent);
  }

  lemma {:induction false} PresentAreNonNil(all: seq<Option<TimelineEntry>>)
    ensures AreNonNil(all, FlatMap(all, Present))
  {
    if all != [] {
      PresentAreNonNil(all[..|all| - 1]);
    }
  }

  /** The execution failed or gave only nil entries. */
  predicate Empty(r: ExecResult) {
    r.Err? || forall e :: e in r.value ==> e.None?
  }

  lemma NonNilOfEmpty(r: ExecResult)
    ensures AreNonNil(Entries(r), []) <==> Empty(r)
  {
    NonNilEmptyIff(Entries(r));
  }

  /** Each of the executions, the first the n-th, failed or gave only nil entries. */
  ghost predicate AllEmpty(executor: Executor, n: nat, ds: seq<CollectDirective>) {
    forall j :: 0 <= j < |ds| ==> EmptyAt(executor, n, ds, j)
  }

  predicate EmptyAt(executor: Executor, n: nat, ds: seq<CollectDirective>, j: nat)
    requires j < |ds|
  {
    Empty(executor(n + j, ds[j]))
  }

  lemma AllEmptyStep(executor: Executor, n: nat, ds: seq<CollectDirective>, d: CollectDirective)
    ensures AllEmpty(executor, n, ds + [d]) <==> AllEmpty(executor, n, ds) && Empty(executor(n + |ds|, d))
  {
    assert EmptyAt(executor, n, ds + [d], |ds|) <==> Empty(executor(n + |ds|, d));
    assert forall j :: 0 <= j < |ds| ==> (EmptyAt(executor, n, ds, j) <==> EmptyAt(executor, n, ds + [d], j));
  }

  lemma NothingByOneMore(executor: Executor, n: nat, ds: seq<CollectDirective>, d: CollectDirective)
    ensures AreNonNil(Brought(Some(executor), n, ds + [d]), [])
            <==> AreNonNil(Brought(Some(executor), n, ds), []) && Empty(executor(n + |ds|, d))
  {
    BroughtByOneMore(executor, n, ds, d);
    NonNilOfEmpty(executor(n + |ds|, d));
    NothingIfNeither(Brought(Some(executor), n, ds), Entries(executor(n + |ds|, d)));
  }

  /** A round adds nothing iff each of its executions failed or gave only nil entries. */
  lemma {:induction false} NothingBroughtIff(executor: Executor, n: nat, ds: seq<CollectDirective>)
    ensures AreNonNil(Brought(Some(executor), n, ds), []) <==> AllEmpty(executor, n, ds)
  {
    if ds != [] {
      var front, d := ds[..|ds| - 1], ds[|ds| - 1];
      NothingBroughtIff(executor, n, front);
      NothingByOneMore(executor, n, front, d);
      AllEmptyStep(executor, n, front, d);
      assert ds == front + [d];
    }
  }

  lemma NothingIfNeither(a: seq<Option<TimelineEntry>>, b: seq<Option<TimelineEntry>>)
    ensures AreNonNil(a + b, []) <==> AreNonNil(a, []) && AreNonNil(b, [])
  {
    SelectConcat(a, b, IsPresent);
  }

  lemma NonNilEmptyIff(all: seq<Option<TimelineEntry>>)
    ensures NonNil(all) == [] <==> forall e :: e in all ==> e.None?
  {
    if forall e :: e in all ==> e.None? {
      SelectNone(all, IsPresent);
    } else {
      var e :| e in all && e.Some?;
      SelectMember(all, IsPresent, e);
    }
  }

  /** ran are the directives that pass the host's checks, as these grant them, in order. */
  ghost predicate AreVetted(h: Host, ds: seq<Option<CollectDirective>>, ran: seq<CollectDirective>) {
    var passed := Select(ds, (d: Option<CollectDirective>) => Validate(h.catalog, d, h.consent).Ok?);
    && |ran| == |passed|
    && forall i :: 0 <= i < |passed| ==>
         var v := Validate(h.catalog, passed[i], h.consent); v.Ok? && v.value.safe == ran[i]
  }

  lemma {:induction false} VetAllMeans(h: Host, ds: seq<Option<CollectDirective>>)
    ensures AreVetted(h, ds, VetAll(h, ds))
  {
    if ds != [] {
      VetAllMeans(h, ds[..|ds| - 1]);
    }
  }

  /** Acting on one directive runs it or does nothing, and adds what its execution brought. */
  lemma OneActBrings(h: Host, w: World, act: Act, n: nat, d: Option<CollectDirective>)
    requires ActsAs(act, h, w, n, d)
    ensures var b := act(n, d);
            if b.ran == [] then b.added == []
            else |b.ran| == 1 && w.executor.Some? && AreNonNil(Entries(w.executor.value(n, b.ran[0])), b.added)
  {
    var b := act(n, d);
    if b.ran != [] {
      PresentAreNonNil(Entries(w.executor.value(n, b.ran[0])));
    }
  }

  /** What acting on directives adds is what their executions brought. */
  lemma {:induction false} AddedAreBrought(h: Host, w: World, act: Act, n: nat, ds: seq<Option<CollectDirective>>)
    requires forall m, d :: ActsAs(act, h, w, m, d)
    ensures var a := ActOn(act, n, ds); AreNonNil(Brought(w.executor, n, a.ran), a.added)
  {
    if ds != [] {
      var k := |ds| - 1;
      var a := ActOn(act, n, ds[..k]);
      AddedAreBrought(h, w, act, n, ds[..k]);
      OneActBrings(h, w, act, n + |a.ran|, ds[k]);
      OneMoreBrings(w.executor, n, a, act(n + |a.ran|, ds[k]));
    }
  }

  lemma OneMoreBrings(executor: Option<Executor>, n: nat, a: Acted, b: Acted)
    requires AreNonNil(Brought(executor, n, a.ran), a.added)
    requires if b.ran == [] then b.added == []
             else |b.ran| == 1 && executor.Some? && AreNonNil(Entries(executor.value(n + |a.ran|, b.ran[0])), b.added)
    ensures AreNonNil(Brought(executor, n, Then(a, b).ran), Then(a, b).added)
  {
    if b.ran == [] {
      assert a.ran + b.ran == a.ran && a.added + b.added == a.added;
    } else {
      assert b.ran == [b.ran[0]];
      BroughtByOneMore(executor.value, n, a.ran, b.ran[0]);
      NonNilConcat(Brought(executor, n, a.ran), Entries(executor.value(n + |a.ran|, b.ran[0])), a.added, b.added);
    }
  }

  /** A round: it posts t, is answered r and runs `ran`, the n-th execution the first of
      them; then comes the next post, if any; and whether another round was left. */
  datatype Turn = Turn(n: nat, r: PostResult, ran: seq<CollectDirective>, t: seq<TimelineEntry>,
                       next: Option<seq<TimelineEntry>>, left: bool)

  /** A round runs what an ABSTAIN asks for and passes; the next post, if there is one,
      carries t and then what the executions brought, which is something; if there is none
      although a round was left and more was asked, they brought nothing. */
  ghost predicate IsRound(h: Host, executor: Option<Executor>, u: Turn) {
    var r := u.r;
    var asked := r.Response? && r.verdict.Some? && r.verdict.value.faultClass == Abstain && r.directives != [];
    && (if asked && executor.Some? then AreVetted(h, r.directives, u.ran) else u.ran == [])
    && match u.next
       case Some(post) => asked && u.t < post && AreNonNil(Brought(executor, u.n, u.ran), post[|u.t|..])
       case None => asked && u.left ==> AreNonNil(Brought(executor, u.n, u.ran), [])
  }

  /** The escalation in rounds: the i-th makes the executions from cuts[i] up to cuts[i + 1]. */
  ghost predicate InRounds(h: Host, w: World, k: nat, n: nat, left: nat, o: Outcome, cuts: seq<nat>) {
    && |cuts| == |o.posts| + 1 && cuts[0] == 0 && cuts[|o.posts|] == |o.executed|
    && forall i :: 0 <= i < |o.posts| ==> RoundAt(h, w, k, n, left, o, cuts, i)
  }

  predicate CutAt(o: Outcome, cuts: seq<nat>, i: nat) {
    i < |o.posts| && |cuts| == |o.posts| + 1 && cuts[i] <= cuts[i + 1] <= |o.executed|
  }

  function TurnAt(server: Server, k: nat, n: nat, left: nat, o: Outcome, cuts: seq<nat>, i: nat): Turn
    requires CutAt(o, cuts, i)
  {
    Turn(n + cuts[i], server(k + i, o.posts[i]), o.executed[cuts[i]..cuts[i + 1]], o.posts[i],
         if i + 1 < |o.posts| then Some(o.posts[i + 1]) else None, i + 1 < left)
  }

  ghost predicate RoundAt(h: Host, w: World, k: nat, n: nat, left: nat, o: Outcome, cuts: seq<nat>, i: nat) {
    CutAt(o, cuts, i) && IsRound(h, w.executor, TurnAt(w.server, k, n, left, o, cuts, i))
  }

  lemma RoundIsRound(h: Host, w: World, act: Act, rounds: Rounds, k: nat, n: nat, t: seq<TimelineEntry>,
                     last: Option<Verdict>, left: bool)
    requires RoundsOf(rounds, w.server, act)
    requires forall m, d :: ActsAs(act, h, w, m, d)
    ensures var s := rounds(k, n, t, last);
            IsRound(h, w.executor, Turn(n, w.server(k, t), s.acted.ran, t,
                                        if s.stop || !left then None else Some(t + s.acted.added), left))
  {
    assert RoundAs(rounds, w.server, act, k, n, t, last);
    var s, r := rounds(k, n, t, last), w.server(k, t);
    if AsksForMore(r) {
      RanAreTheVetted(h, w, act, n, r.directives);
      VetAllMeans(h, r.directives);
      AddedAreBrought(h, w, act, n, r.directives);
      assert (t + s.acted.added)[|t|..] == s.acted.added;
    }
  }

  /** Whatever server and executor do, the escalation goes by such rounds. */
  lemma {:induction false} EscalationGoesInRounds(h: Host, w: World, act: Act, rounds: Rounds, k: nat, n: nat,
      left: nat, t: seq<TimelineEntry>, last: Option<Verdict>)
    returns (cuts: seq<nat>)
    requires RoundsOf(rounds, w.server, act) && left > 0
    requires forall m, d :: ActsAs(act, h, w, m, d)
    ensures InRounds(h, w, k, n, left, Escalate(rounds, k, n, left, t, last), cuts)
    decreases left
  {
    var s, o := rounds(k, n, t, last), Escalate(rounds, k, n, left, t, last);
    RoundIsRound(h, w, act, rounds, k, n, t, last, left > 1);
    var ran := s.acted.ran;
    if s.stop || left == 1 {
      cuts := [0, |ran|];
      OneRound(h, w, k, n, left, t, ran, o);
    } else {
      var u := t + s.acted.added;
      var p := Escalate(rounds, k + 1, n + |ran|, left - 1, u, s.verdict);
      var later := EscalationGoesInRounds(h, w, act, rounds, k + 1, n + |ran|, left - 1, u, s.verdict);
      assert p.posts != [] && p.posts[0] == u;
      cuts := OneMoreRound(h, w, k, n, left, t, ran, o, p, later);
    }
  }

  lemma OneRound(h: Host, w: World, k: nat, n: nat, left: nat, t: seq<TimelineEntry>, ran: seq<CollectDirective>,
                 o: Outcome)
    requires o.posts == [t] && o.executed == ran && left > 0
    requires IsRound(h, w.executor, Turn(n, w.server(k, t), ran, t, None, left > 1))
    ensures InRounds(h, w, k, n, left, o, [0, |ran|])
  {
    assert o.executed[0..|ran|] == ran;
    assert TurnAt(w.server, k, n, left, o, [0, |ran|], 0) == Turn(n, w.server(k, t), ran, t, None, left > 1);
    assert RoundAt(h, w, k, n, left, o, [0, |ran|], 0);
  }

  lemma OneMoreRound(h: Host, w: World, k: nat, n: nat, left: nat, t: seq<TimelineEntry>,
                     ran: seq<CollectDirective>, o: Outcome, p: Outcome, later: seq<nat>)
    returns (cuts: seq<nat>)
    requires left > 1 && o.posts == [t] + p.posts && o.executed == ran + p.executed && p.posts != []
    requires InRounds(h, w, k + 1, n + |ran|, left - 1, p, later)
    requires IsRound(h, w.executor, Turn(n, w.server(k, t), ran, t, Some(p.posts[0]), true))
    ensures InRounds(h, w, k, n, left, o, cuts)
  {
    cuts := OneMoreCut(|ran|, later);
    FirstRound(h, w, k, n, left, t, ran, o, p, cuts);
    forall i | 0 <= i < |o.posts| ensures RoundAt(h, w, k, n, left, o, cuts, i) {
      if i > 0 {
        LaterRound(h, w, k, n, left, t, ran, o, p, later, cuts, i - 1);
      }
    }
  }

  lemma LaterRound(h: Host, w: World, k: nat, n: nat, left: nat, t: seq<TimelineEntry>, ran: seq<CollectDirective>,
                   o: Outcome, p: Outcome, later: seq<nat>, cuts: seq<nat>, j: nat)
    requires left > 1 && o.posts == [t] + p.posts && o.executed == ran + p.executed && j < |p.posts|
    requires InRounds(h, w, k + 1, n + |ran|, left - 1, p, later) && cuts == OneMoreCut(|ran|, later)
    ensures RoundAt(h, w, k, n, left, o, cuts, j + 1)
  {
    assert RoundAt(h, w, k + 1, n + |ran|, left - 1, p, later, j);
    RoundOneLater(h, w, k, n, left, t, ran, o, p, later, cuts, j);
  }

  function OneMoreCut(n: nat, later: seq<nat>): (cuts: seq<nat>)
    ensures |cuts| == |later| + 1 && cuts[0] == 0
    ensures forall i :: 0 <= i < |later| ==> cuts[i + 1] == n + later[i]
  {
    [0] + seq(|later|, i requires 0 <= i < |later| => n + later[i])
  }

  lemma FirstRound(h: Host, w: World, k: nat, n: nat, left: nat, t: seq<TimelineEntry>, ran: seq<CollectDirective>,
                   o: Outcome, p: Outcome, cuts: seq<nat>)
    requires left > 1 && o.posts == [t] + p.posts && o.executed == ran + p.executed && p.posts != []
    requires |cuts| == |o.posts| + 1 && cuts[0] == 0 && cuts[1] == |ran|
    requires IsRound(h, w.executor, Turn(n, w.server(k, t), ran, t, Some(p.posts[0]), true))
    ensures RoundAt(h, w, k, n, left, o, cuts, 0)
  {
    assert o.executed[0..|ran|] == ran;
    assert TurnAt(w.server, k, n, left, o, cuts, 0) == Turn(n, w.server(k, t), ran, t, Some(p.posts[0]), true);
  }

  lemma RoundOneLater(h: Host, w: World, k: nat, n: nat, left: nat, t: seq<TimelineEntry>,
                      ran: seq<CollectDirective>, o: Outcome, p: Outcome, later: seq<nat>, cuts: seq<nat>, j: nat)
    requires left > 1 && o.posts == [t] + p.posts && o.executed == ran + p.executed
    requires j < |p.posts| && |later| == |p.posts| + 1 && |cuts| == |later| + 1
    requires cuts[j + 1] == |ran| + later[j] && cuts[j + 2] == |ran| + later[j + 1]
    requires RoundAt(h, w, k + 1, n + |ran|, left - 1, p, later, j)
    ensures RoundAt(h, w, k, n, left, o, cuts, j + 1)
  {
    SliceAfter(ran, p.executed, later[j], later[j + 1]);
    assert TurnAt(w.server, k, n, left, o, cuts, j + 1) == TurnAt(w.server, k + 1, n + |ran|, left - 1, p, later, j);
  }

  lemma SliceAfter<T>(s: seq<T>, t: seq<T>, a: nat, b: nat)
    requires a <= b <= |t|
    ensures (s + t)[|s| + a..|s| + b] == t[a..b]
  {
  }

  lemma EscalationIsPromised(h: Host, w: World, act: Act, rounds: Rounds, k: nat, n: nat, t: seq<TimelineEntry>)
    requires Budgeted(h.catalog) && RoundsOf(rounds, w.server, act)
    requires forall m, d :: ActsAs(act, h, w, m, d)
    ensures Promised(h, w, act, k, n, t, Escalate(rounds, k, n, MAX_ROUNDS, t, None))
  {
    PostsAreBoundedAndGrow(rounds, w.server, act, k, n, MAX_ROUNDS, t, None);
    ExecutedAreSafe(h, w, act, rounds, k, n, MAX_ROUNDS, t, None);
    VerdictsAreHonest(rounds, w.server, act, k, n, MAX_ROUNDS, t, None);
    StopsOnlyWhenSpent(rounds, w.server, act, k, n, MAX_ROUNDS, t, None);
    var cuts := EscalationGoesInRounds(h, w, act, rounds, k, n, MAX_ROUNDS, t, None);
  }

  /** A new client on the agent's own catalog: whatever the server sends and the executor
      yields, the promises hold of all it posts and executes. */
  method InvestigateOnce(consent: Consent, world: World, pack: Pack)
    returns (c: Client, verdict: Option<Verdict>, failed: bool)
    ensures fresh(c) && c.host == Host(CATALOG, consent) && c.world == world && c.Described()
    ensures Promised(Host(CATALOG, consent), world, c.act, 0, 0, pack.timeline,
                     Outcome(c.posts, c.executed, verdict, failed))
  {
    c := new Client(consent, world);
    verdict, failed := c.Investigate(pack);
    assert c.posts[0..] == c.posts && c.executed[0..] == c.executed;
  }

  predicate HasVerdict(r: PostResult) {
    r.Response? && r.verdict.Some?
  }

  /** Executing ds after n executions runs exactly `ran` and adds nothing. */
  ghost predicate AddsNothing(act: Act, n: nat, ds: seq<Option<CollectDirective>>, ran: seq<CollectDirective>) {
    ActOn(act, n, ds) == Acted([], ran)
  }

  /** The first post carries t, and each later one a strict extension of the one before. */
  ghost predicate GrowsFrom(t: seq<TimelineEntry>, posts: seq<seq<TimelineEntry>>) {
    && posts != [] && posts[0] == t
    && forall i :: 1 <= i < |posts| ==> Extends(posts, i)
  }

  predicate Extends(posts: seq<seq<TimelineEntry>>, i: nat)
    requires 1 <= i < |posts|
  {
    posts[i - 1] < posts[i]
  }

  lemma GrowsOneEarlier(t: seq<TimelineEntry>, u: seq<TimelineEntry>, posts: seq<seq<TimelineEntry>>)
    requires t < u && GrowsFrom(u, posts)
    ensures GrowsFrom(t, [t] + posts)
  {
    forall i | 1 <= i < |posts| + 1 ensures Extends([t] + posts, i) {
      assert i > 1 ==> Extends(posts, i - 1);
    }
  }

  /** At most as many posts as there are rounds, and they grow. */
  lemma {:induction false} PostsAreBoundedAndGrow(rounds: Rounds, server: Server, act: Act, k: nat, n: nat,
      left: nat, t: seq<TimelineEntry>, last: Option<Verdict>)
    requires RoundsOf(rounds, server, act) && left > 0
    ensures var o := Escalate(rounds, k, n, left, t, last);
            |o.posts| <= left && GrowsFrom(t, o.posts)
    decreases left
  {
    var s := rounds(k, n, t, last);
    RoundMeans(rounds, server, act, k, n, t, last);
    if !s.stop && left > 1 {
      var u := t + s.acted.added;
      PostsAreBoundedAndGrow(rounds, server, act, k + 1, n + |s.acted.ran|, left - 1, u, s.verdict);
      GrowsOneEarlier(t, u, Escalate(rounds, k + 1, n + |s.acted.ran|, left - 1, u, s.verdict).posts);
    }
  }

  ghost predicate AllSafe(h: Host, ds: seq<CollectDirective>) {
    forall d :: d in ds ==> Safe(h.catalog, d, h.consent)
  }

  lemma {:induction false} VettedAreSafe(ds: seq<Option<CollectDirective>>, h: Host)
    requires Budgeted(h.catalog)
    ensures AllSafe(h, VetAll(h, ds))
  {
    if ds != [] {
      VettedAreSafe(ds[..|ds| - 1], h);
      ValidatedIsSafe(h.catalog, ds[|ds| - 1], h.consent);
    }
  }

  lemma RoundRunsSafe(h: Host, w: World, act: Act, rounds: Rounds, k: nat, n: nat, t: seq<TimelineEntry>,
                      last: Option<Verdict>)
    requires Budgeted(h.catalog) && RoundsOf(rounds, w.server, act)
    requires forall m, d :: ActsAs(act, h, w, m, d)
    ensures AllSafe(h, rounds(k, n, t, last).acted.ran)
  {
    assert RoundAs(rounds, w.server, act, k, n, t, last);
    var r := w.server(k, t);
    if AsksForMore(r) {
      RanAreTheVetted(h, w, act, n, r.directives);
      VettedAreSafe(r.directives, h);
    }
  }

  /** Every directive that reaches the executor is safe, whatever the server sent. */
  lemma {:induction false} ExecutedAreSafe(h: Host, w: World, act: Act, rounds: Rounds, k: nat, n: nat, left: nat,
                                           t: seq<TimelineEntry>, last: Option<Verdict>)
    requires Budgeted(h.catalog) && RoundsOf(rounds, w.server, act)
    requires forall m, d :: ActsAs(act, h, w, m, d)
    ensures AllSafe(h, Escalate(rounds, k, n, left, t, last).executed)
    decreases left
  {
    if left > 0 {
      var s := rounds(k, n, t, last);
      RoundRunsSafe(h, w, act, rounds, k, n, t, last);
      if !s.stop {
        ExecutedAreSafe(h, w, act, rounds, k + 1, n + |s.acted.ran|, left - 1, t + s.acted.added, s.verdict);
      }
    }
  }

  /** The answer to the j-th post of an outcome. */
  function Answer(server: Server, k: nat, o: Outcome, j: nat): PostResult
    requires j < |o.posts|
  {
    server(k + j, o.posts[j])
  }

  lemma AnswerOneEarlier(server: Server, k: nat, t: seq<TimelineEntry>, o: Outcome, p: Outcome, j: nat)
    requires o.posts == [t] + p.posts && j < |p.posts|
    ensures Answer(server, k, o, j + 1) == Answer(server, k + 1, p, j)
  {
  }

  /** What is returned without an error is the verdict of the last answer; an error means
      the last answer had none, and comes with `last` if there was one post only, else with
      the ABSTAIN of the answer before. */
  ghost predicate Honest(server: Server, k: nat, o: Outcome, last: Option<Verdict>) {
    && o.posts != []
    && var z := Answer(server, k, o, |o.posts| - 1);
       if o.failed then
         && !HasVerdict(z)
         && if |o.posts| == 1 then o.verdict == last
            else var y := Answer(server, k, o, |o.posts| - 2);
                 AsksForMore(y) && o.verdict == y.verdict
       else
         HasVerdict(z) && o.verdict == z.verdict
  }

  lemma {:induction false} VerdictsAreHonest(rounds: Rounds, server: Server, act: Act, k: nat, n: nat, left: nat,
                                             t: seq<TimelineEntry>, last: Option<Verdict>)
    requires RoundsOf(rounds, server, act) && left > 0
    ensures Honest(server, k, Escalate(rounds, k, n, left, t, last), last)
    decreases left
  {
    var s, o := rounds(k, n, t, last), Escalate(rounds, k, n, left, t, last);
    RoundMeans(rounds, server, act, k, n, t, last);
    if !s.stop && left > 1 {
      var u := t + s.acted.added;
      var p := Escalate(rounds, k + 1, n + |s.acted.ran|, left - 1, u, s.verdict);
      VerdictsAreHonest(rounds, server, act, k + 1, n + |s.acted.ran|, left - 1, u, s.verdict);
      HonestOneEarlier(server, k, t, o, p, last, s.verdict);
    }
  }

  lemma HonestOneEarlier(server: Server, k: nat, t: seq<TimelineEntry>, o: Outcome, p: Outcome, last: Option<Verdict>,
                         verdict: Option<Verdict>)
    requires o.posts == [t] + p.posts && o.verdict == p.verdict && o.failed == p.failed
    requires Honest(server, k + 1, p, verdict)
    requires AsksForMore(server(k, t)) && verdict == server(k, t).verdict
    ensures Honest(server, k, o, last)
  {
    AnswerOneEarlier(server, k, t, o, p, |p.posts| - 1);
    if |p.posts| > 1 {
      AnswerOneEarlier(server, k, t, o, p, |p.posts| - 2);
    }
  }

  /** The last answer of an outcome gave no reason to go on: no verdict or a fault, nothing
      asked, asking brought nothing, or the rounds are used up. */
  ghost predicate Spent(server: Server, act: Act, k: nat, n: nat, left: nat, o: Outcome) {
    && o.posts != []
    && var z := Answer(server, k, o, |o.posts| - 1);
       !AsksForMore(z) || |o.posts| == left || exists m: nat :: BroughtNothing(act, n, z.directives, o.executed, m)
  }

  /** The executions from the m-th on were those of ds, and added nothing. */
  ghost predicate BroughtNothing(act: Act, n: nat, ds: seq<Option<CollectDirective>>,
                                 executed: seq<CollectDirective>, m: nat) {
    m <= |executed| && AddsNothing(act, n + m, ds, executed[m..])
  }

  lemma {:induction false} StopsOnlyWhenSpent(rounds: Rounds, server: Server, act: Act, k: nat, n: nat, left: nat,
                                              t: seq<TimelineEntry>, last: Option<Verdict>)
    requires RoundsOf(rounds, server, act) && left > 0
    ensures Spent(server, act, k, n, left, Escalate(rounds, k, n, left, t, last))
    decreases left
  {
    var s, o := rounds(k, n, t, last), Escalate(rounds, k, n, left, t, last);
    RoundMeans(rounds, server, act, k, n, t, last);
    if s.stop {
      assert o.executed[0..] == o.executed;
      assert AsksForMore(server(k, t)) ==> BroughtNothing(act, n, server(k, t).directives, o.executed, 0);
    } else if left > 1 {
      var p := Escalate(rounds, k + 1, n + |s.acted.ran|, left - 1, t + s.acted.added, s.verdict);
      StopsOnlyWhenSpent(rounds, server, act, k + 1, n + |s.acted.ran|, left - 1, t + s.acted.added, s.verdict);
      SpentOneEarlier(server, act, k, n, left, t, s.acted.ran, o, p);
    }
  }

  lemma SpentOneEarlier(server: Server, act: Act, k: nat, n: nat, left: nat, t: seq<TimelineEntry>,
                        ran: seq<CollectDirective>, o: Outcome, p: Outcome)
    requires left > 0 && o.posts == [t] + p.posts && o.executed == ran + p.executed
    requires Spent(server, act, k + 1, n + |ran|, left - 1, p)
    ensures Spent(server, act, k, n, left, o)
  {
    AnswerOneEarlier(server, k, t, o, p, |p.posts| - 1);
    var z := Answer(server, k + 1, p, |p.posts| - 1);
    if AsksForMore(z) && |p.posts| != left - 1 {
      var m: nat :| BroughtNothing(act, n + |ran|, z.directives, p.executed, m);
      assert o.executed[|ran| + m..] == p.executed[m..];
      assert BroughtNothing(act, n, z.directives, o.executed, |ran| + m);
    }
  }
}
