/** The capability catalog and directive validation (internal/capability/catalog.go,
    internal/directive/validate.go): what a control plane may make the agent run. */
module Directives {
  import opened Prelude

  type ConsentTier = int
  const UNPRIVILEGED: ConsentTier := 1
  const PRIVILEGED: ConsentTier := 2

  /** Durations are milliseconds; a nil duration is None. */
  datatype ResourceBudget = ResourceBudget(maxDuration: Option<int>, maxCpuMillicores: nat, maxMapEntries: nat, maxSamples: nat)

  datatype Capability = Capability(id: string, tier: ConsentTier, budget: Option<ResourceBudget>)

  datatype CollectDirective = CollectDirective(capabilityId: string, budget: Option<ResourceBudget>, payload: string)

  const MINUTE: int := 60000

  const CATALOG: seq<Capability> := [
    Capability("dcgm.fields", UNPRIVILEGED, Some(ResourceBudget(Some(10 * MINUTE), 200, 0, 6000))),
    Capability("prometheus.query", UNPRIVILEGED, Some(ResourceBudget(Some(5 * MINUTE), 100, 0, 4000))),
    Capability("dmesg.xid", UNPRIVILEGED, Some(ResourceBudget(Some(10 * MINUTE), 50, 0, 2000))),
    Capability("ebpf.nvlink.retrans", PRIVILEGED, Some(ResourceBudget(Some(2 * MINUTE), 150, 4096, 2000)))]

  function Find(cs: seq<Capability>, id: string): Option<Capability> {
    if cs == [] then None else if cs[0].id == id then Some(cs[0]) else Find(cs[1..], id)
  }

  lemma {:induction false} FindMeans(cs: seq<Capability>, id: string)
    ensures var r := Find(cs, id);
            if r.None? then forall c :: c in cs ==> c.id != id else r.value in cs && r.value.id == id
  {
    if cs != [] {
      FindMeans(cs[1..], id);
      assert forall c :: c in cs <==> c == cs[0] || c in cs[1..];
    }
  }

  // ---- clamping

  function ClampU32(req: nat, cap: nat): nat {
    if req == 0 || req > cap then cap else req
  }

  function ClampDuration(req: Option<int>, cap: Option<int>): Option<int> {
    if cap.None? then req
    else if req.None? || req.value <= 0 || req.value > cap.value then cap
    else req
  }

  const EMPTY_BUDGET: ResourceBudget := ResourceBudget(None, 0, 0, 0)

  function ClampBudget(req: Option<ResourceBudget>, cap: Option<ResourceBudget>): ResourceBudget {
    if cap.None? then EMPTY_BUDGET
    else
      var c := cap.value;
      if req.None? then c
      else
        var r := req.value;
        ResourceBudget(ClampDuration(r.maxDuration, c.maxDuration), ClampU32(r.maxCpuMillicores, c.maxCpuMillicores),
                       ClampU32(r.maxMapEntries, c.maxMapEntries), ClampU32(r.maxSamples, c.maxSamples))
  }

  datatype Vetted = Vetted(capability: Capability, safe: CollectDirective)
  datatype Refusal = NilDirective | EmptyId | UnknownId | TierNotEnabled

  /** A host without a consent gate refuses every tier. */
  type Consent = Option<ConsentTier -> bool>

  predicate Enabled(consent: Consent, t: ConsentTier) {
    consent.Some? && consent.value(t)
  }

  function Validate(cat: seq<Capability>, d: Option<CollectDirective>, consent: Consent): Result<Vetted, Refusal> {
    if d.None? then Err(NilDirective)
    else if d.value.capabilityId == "" then Err(EmptyId)
    else
      var c := Find(cat, d.value.capabilityId);
      if c.None? then Err(UnknownId)
      else if !Enabled(consent, c.value.tier) then Err(TierNotEnabled)
      else Ok(Vetted(c.value, d.value.(budget := Some(ClampBudget(d.value.budget, c.value.budget)))))
  }

  // ---- what validation promises

  /** No field of b exceeds a ceiling that cap declares. */
  predicate WithinCap(b: ResourceBudget, cap: ResourceBudget) {
    && (cap.maxDuration.Some? ==> b.maxDuration.Some? && b.maxDuration.value <= cap.maxDuration.value)
    && b.maxCpuMillicores <= cap.maxCpuMillicores
    && b.maxMapEntries <= cap.maxMapEntries
    && b.maxSamples <= cap.maxSamples
  }

  /** d names a capability of the catalog whose tier the host enabled, and its budget
      keeps every cap of that capability. */
  ghost predicate Safe(cat: seq<Capability>, d: CollectDirective, consent: Consent) {
    exists c :: c in cat && SafeUnder(c, d, consent)
  }

  predicate SafeUnder(c: Capability, d: CollectDirective, consent: Consent) {
    && c.id == d.capabilityId && Enabled(consent, c.tier)
    && d.budget.Some? && c.budget.Some? && WithinCap(d.budget.value, c.budget.value)
  }

  /** Every capability declares its ceilings. */
  ghost predicate Budgeted(cat: seq<Capability>) {
    forall c :: c in cat ==> c.budget.Some?
  }

  lemma CatalogIsBudgeted()
    ensures Budgeted(CATALOG)
    ensures forall c :: c in CATALOG ==> c.budget.value.maxDuration.Some?
  {
  }

  /** Whatever is asked, what passes is safe and differs from the request in its budget
      only; and a request is refused only for its id or its tier. */
  lemma ValidatedIsSafe(cat: seq<Capability>, d: Option<CollectDirective>, consent: Consent)
    requires Budgeted(cat)
    ensures var r := Validate(cat, d, consent);
            && (r.Ok? ==> Safe(cat, r.value.safe, consent)
                          && d.Some? && r.value.safe == d.value.(budget := r.value.safe.budget))
            && (r.Err? ==> d.None? || d.value.capabilityId == ""
                           || (forall c :: c in cat ==> c.id != d.value.capabilityId)
                           || exists c :: c in cat && c.id == d.value.capabilityId && !Enabled(consent, c.tier))
  {
    if d.Some? {
      var id := d.value.capabilityId;
      FindMeans(cat, id);
      var r := Validate(cat, d, consent);
      if r.Ok? {
        var c := Find(cat, id).value;
        ClampBudgetLaws(d.value.budget, c.budget.value);
        assert SafeUnder(c, r.value.safe, consent);
      }
    }
  }

  /** A grant that neither the cap nor a non-zero request forbids. */
  predicate Permitted(g: nat, req: nat, cap: nat) {
    g <= cap && (req > 0 ==> g <= req)
  }

  /** What is granted is the most that is permitted; a request of zero asks for the cap. */
  lemma ClampIsLargestPermitted(req: nat, cap: nat)
    ensures var g := ClampU32(req, cap); Permitted(g, req, cap) && forall h: nat :: Permitted(h, req, cap) ==> h <= g
  {
  }

  /** For durations besides, no cap leaves the request as it is. */
  predicate PermittedDuration(d: Option<int>, req: Option<int>, cap: Option<int>) {
    if cap.None? then d == req
    else d.Some? && d.value <= cap.value && (req.Some? && req.value > 0 ==> d.value <= req.value)
  }

  lemma ClampDurationIsLargestPermitted(req: Option<int>, cap: Option<int>)
    ensures var g := ClampDuration(req, cap);
            && PermittedDuration(g, req, cap)
            && forall h :: PermittedDuration(h, req, cap) && h.Some? ==> g.Some? && h.value <= g.value
  {
  }

  /** Field by field, a budget's grant is the most that is permitted; what asks for nothing
      gets the cap, and a capability without a budget grants nothing. */
  lemma GrantIsExact(req: Option<ResourceBudget>, cap: Option<ResourceBudget>)
    ensures var b := ClampBudget(req, cap);
            if cap.None? then
              b.maxDuration == None && b.maxCpuMillicores == 0 && b.maxMapEntries == 0 && b.maxSamples == 0
            else if req.None? then b == cap.value
            else
              var r, c := req.value, cap.value;
              && PermittedDuration(b.maxDuration, r.maxDuration, c.maxDuration)
              && Permitted(b.maxCpuMillicores, r.maxCpuMillicores, c.maxCpuMillicores)
              && Permitted(b.maxMapEntries, r.maxMapEntries, c.maxMapEntries)
              && Permitted(b.maxSamples, r.maxSamples, c.maxSamples)
              && (forall h :: PermittedDuration(Some(h), r.maxDuration, c.maxDuration)
                              ==> b.maxDuration.Some? && h <= b.maxDuration.value)
              && (forall h: nat :: Permitted(h, r.maxCpuMillicores, c.maxCpuMillicores) ==> h <= b.maxCpuMillicores)
              && (forall h: nat :: Permitted(h, r.maxMapEntries, c.maxMapEntries) ==> h <= b.maxMapEntries)
              && (forall h: nat :: Permitted(h, r.maxSamples, c.maxSamples) ==> h <= b.maxSamples)
  {
  }

  /** A field is left alone: it equals its cap, or is positive and within it. */
  predicate Kept(r: nat, c: nat) {
    r == c || 0 < r <= c
  }

  predicate KeptDuration(r: Option<int>, c: Option<int>) {
    c.None? || r == c || (r.Some? && 0 < r.value <= c.value)
  }

  predicate KeptBudget(r: ResourceBudget, c: ResourceBudget) {
    && KeptDuration(r.maxDuration, c.maxDuration) && Kept(r.maxCpuMillicores, c.maxCpuMillicores)
    && Kept(r.maxMapEntries, c.maxMapEntries) && Kept(r.maxSamples, c.maxSamples)
  }

  /** For any cap: the grant stays within it, clamping what was granted changes nothing,
      and a request is granted unchanged iff every field of it is left alone. */
  lemma ClampBudgetLaws(req: Option<ResourceBudget>, cap: ResourceBudget)
    ensures var b := ClampBudget(req, Some(cap));
            && WithinCap(b, cap)
            && ClampBudget(Some(b), Some(cap)) == b
            && (req.Some? ==> (b == req.value <==> KeptBudget(req.value, cap)))
  {
  }

  /** d asks only for what is left alone. A capability without a budget grants nothing. */
  predicate KeptUnder(c: Capability, d: CollectDirective) {
    && d.budget.Some?
    && if c.budget.None? then d.budget.value == EMPTY_BUDGET else KeptBudget(d.budget.value, c.budget.value)
  }

  /** A directive passes unchanged iff its capability is in the catalog and enabled, and
      every field of its budget is left alone. */
  lemma ValidatedUnchangedIff(cat: seq<Capability>, d: CollectDirective, consent: Consent)
    ensures var r, c := Validate(cat, Some(d), consent), Find(cat, d.capabilityId);
            r.Ok? && r.value.safe == d
            <==> d.capabilityId != "" && c.Some? && Enabled(consent, c.value.tier) && KeptUnder(c.value, d)
  {
    var c := Find(cat, d.capabilityId);
    if c.Some? && d.budget.Some? && c.value.budget.Some? {
      ClampBudgetLaws(d.budget, c.value.budget.value);
    }
  }

  /** The first capability of an id is found. */
  lemma {:induction false} FindAt(cs: seq<Capability>, i: nat)
    requires i < |cs| && forall j :: 0 <= j < i ==> cs[j].id != cs[i].id
    ensures Find(cs, cs[i].id) == Some(cs[i])
  {
    if i > 0 {
      FindAt(cs[1..], i - 1);
    }
  }

  lemma FindDmesg()
    ensures Find(CATALOG, CATALOG[2].id) == Some(CATALOG[2])
  {
    assert CATALOG[0].id[1] == 'c' && CATALOG[1].id[1] == 'r' && CATALOG[2].id[1] == 'm';
    FindAt(CATALOG, 2);
  }

  /** Under the default consent a small request passes unchanged, while a safe one that
      leaves a field zero is raised to the cap. */
  lemma SafeCanChange(small: CollectDirective, zero: CollectDirective)
    requires small == CollectDirective(CATALOG[2].id, Some(ResourceBudget(Some(1), 10, 0, 100)), "")
    requires zero == CollectDirective(CATALOG[2].id, Some(ResourceBudget(Some(1), 10, 0, 0)), "")
    ensures Safe(CATALOG, small, Tier0Consent()) && Safe(CATALOG, zero, Tier0Consent())
    ensures var r := Validate(CATALOG, Some(small), Tier0Consent()); r.Ok? && r.value.safe == small
    ensures var r := Validate(CATALOG, Some(zero), Tier0Consent()); r.Ok? && r.value.safe != zero
  {
    FindDmesg();
    assert CATALOG[2].id[0] == 'd';
    assert SafeUnder(CATALOG[2], small, Tier0Consent()) && SafeUnder(CATALOG[2], zero, Tier0Consent());
    ValidatedUnchangedIff(CATALOG, small, Tier0Consent());
    ValidatedUnchangedIff(CATALOG, zero, Tier0Consent());
  }

  /** Validation is idempotent: a directive that passed passes again, unchanged. */
  lemma ValidateIsIdempotent(cat: seq<Capability>, d: Option<CollectDirective>, consent: Consent)
    requires Budgeted(cat) && Validate(cat, d, consent).Ok?
    ensures Validate(cat, Some(Validate(cat, d, consent).value.safe), consent) == Validate(cat, d, consent)
  {
    FindMeans(cat, d.value.capabilityId);
    ClampBudgetLaws(d.value.budget, Find(cat, d.value.capabilityId).value.budget.value);
  }

  /** The default consent gate enables the unprivileged tier only. */
  /** The budget stays within so many milliseconds, millicores, map entries and samples. */
  predicate Bounded(b: ResourceBudget, ms: int, cpu: nat, entries: nat, samples: nat) {
    && b.maxDuration.Some? && b.maxDuration.value <= ms
    && b.maxCpuMillicores <= cpu && b.maxMapEntries <= entries && b.maxSamples <= samples
  }

  /** What is safe on the agent's own catalog is one of four observers within its ceilings,
      the privileged one only with the operator's consent to its tier. */
  lemma SafeIsBounded(d: CollectDirective, consent: Consent)
    requires Safe(CATALOG, d, consent)
    ensures d.budget.Some?
    ensures var b, id := d.budget.value, d.capabilityId;
            || (id == "dcgm.fields" && Enabled(consent, 1) && Bounded(b, 600000, 200, 0, 6000))
            || (id == "prometheus.query" && Enabled(consent, 1) && Bounded(b, 300000, 100, 0, 4000))
            || (id == "dmesg.xid" && Enabled(consent, 1) && Bounded(b, 600000, 50, 0, 2000))
            || (id == "ebpf.nvlink.retrans" && Enabled(consent, 2) && Bounded(b, 120000, 150, 4096, 2000))
  {
    var c :| c in CATALOG && SafeUnder(c, d, consent);
  }

  function Tier0Consent(): Consent { Some((t: ConsentTier) => t == UNPRIVILEGED) }

  /** Under it the privileged observer is never run, whatever the directive says. */
  lemma Tier0NeverPrivileged(d: CollectDirective)
    requires Safe(CATALOG, d, Tier0Consent())
    ensures d.capabilityId != "ebpf.nvlink.retrans"
  {
    var c :| c in CATALOG && SafeUnder(c, d, Tier0Consent());
  }
}
