/** The built-in table of datasheet peaks and its model matching (gpu_peak_table.go). */
module Peaks {
  import opened Prelude
  import opened Evidence
  import opened Text
  import Spec

  datatype PeakEntry = PeakEntry(canonical: string, tflops: real)
  type Table = map<string, PeakEntry>

  const BUILTIN: Table := map[
    "a10" := PeakEntry("A10", 125.0),
    "a100-40gb" := PeakEntry("A100-40GB", 312.0),
    "a100-80gb" := PeakEntry("A100-80GB", 312.0),
    "h100-sxm" := PeakEntry("H100-SXM", 989.4),
    "h100-pcie" := PeakEntry("H100-PCIe", 756.0),
    "h100-nvl" := PeakEntry("H100-NVL", 835.0),
    "h200" := PeakEntry("H200", 989.4),
    "gh200" := PeakEntry("GH200", 989.4),
    "l4" := PeakEntry("L4", 121.0),
    "l40" := PeakEntry("L40", 181.0),
    "l40s" := PeakEntry("L40S", 362.0),
    "v100" := PeakEntry("V100", 125.0),
    "t4" := PeakEntry("T4", 65.0),
    "a6000" := PeakEntry("A6000", 155.0),
    "b200" := PeakEntry("B200", 2250.0)]

  /** An absent key reads as the zero entry. */
  function At(t: Table, k: string): PeakEntry {
    if k in t then t[k] else PeakEntry("", 0.0)
  }

  // ---- tokens at the front of a name

  predicate Boundary(n: string, len: nat) {
    len <= |n| && (len == |n| || n[len] == ' ' || n[len] == '-')
  }

  /** k is n, or starts it and is followed by a space or a dash. */
  predicate Leads(k: string, n: string) {
    HasPrefix(n, k) && Boundary(n, |k|)
  }

  /** The longest key, of at most len characters, that leads n. */
  function LongestFrom(t: Table, n: string, len: nat): Option<string>
    requires len <= |n|
  {
    if len == 0 then None
    else if n[..len] in t && Boundary(n, len) then Some(n[..len])
    else LongestFrom(t, n, len - 1)
  }

  /** r is the one longest of the non-empty keys in ks that lead n. */
  ghost predicate IsLongest(ks: set<string>, n: string, r: Option<string>) {
    if r.None? then forall k :: k in ks && Leads(k, n) ==> k == ""
    else r.value != "" && r.value in ks && Leads(r.value, n) && forall k :: k in ks && Leads(k, n) ==> |k| <= |r.value|
  }

  lemma {:induction false} LongestFromIsLongest(t: Table, n: string, len: nat)
    requires len <= |n|
    requires forall k :: k in t && Leads(k, n) ==> |k| <= len
    ensures IsLongest(t.Keys, n, LongestFrom(t, n, len))
  {
    if len > 0 && !(n[..len] in t && Boundary(n, len)) {
      forall k | k in t && Leads(k, n) ensures |k| <= len - 1 {
        assert k == n[..|k|];
      }
      LongestFromIsLongest(t, n, len - 1);
    }
  }

  /** Whatever the order of the search, there is one longest key: keys of equal length
      that lead the same name are equal. */
  lemma LongestIsUnique(ks: set<string>, n: string, r1: Option<string>, r2: Option<string>)
    requires IsLongest(ks, n, r1) && IsLongest(ks, n, r2)
    ensures r1 == r2
  {
    if r1.Some? && r2.Some? {
      assert |r1.value| == |r2.value|;
      assert r1.value == n[..|r1.value|];
    }
  }

  function Longest(t: Table, n: string): Option<string> {
    LongestFrom(t, n, |n|)
  }

  /** Ranges over the table in any order, keeping the longest key so far. */
  method SearchLongest(t: Table, n: string) returns (best: string)
    ensures best == match Longest(t, n) case None => "" case Some(k) => k
  {
    best := "";
    var left := t.Keys;
    while left != {}
      invariant left <= t.Keys
      invariant IsLongest(t.Keys - left, n, if best == "" then None else Some(best))
    {
      var k :| k in left;
      if (n == k || HasPrefix(n, k + " ") || HasPrefix(n, k + "-")) && |k| > |best| {
        best := k;
      }
      LeadsInWords(k, n);
      left := left - {k};
    }
    LongestFromIsLongest(t, n, |n|);
    assert t.Keys - left == t.Keys;
    LongestIsUnique(t.Keys, n, Longest(t, n), if best == "" then None else Some(best));
  }

  lemma LeadsInWords(k: string, n: string)
    ensures Leads(k, n) <==> n == k || HasPrefix(n, k + " ") || HasPrefix(n, k + "-")
  {
    if Leads(k, n) && |n| > |k| {
      assert n[..|k| + 1] == k + [n[|k|]];
    }
    if HasPrefix(n, k + " ") {
      assert n[..|k| + 1][..|k|] == k && n[..|k| + 1][|k|] == ' ';
    }
    if HasPrefix(n, k + "-") {
      assert n[..|k| + 1][..|k|] == k && n[..|k| + 1][|k|] == '-';
    }
  }

  // ---- matching a model name

  function StripWord(n: string, p: string): string {
    TrimSpace(TrimPrefix(n, p))
  }

  function Bare(model: string): string {
    StripWord(StripWord(StripWord(Spec.NormModel(model), "tesla "), "rtx "), "quadro ")
  }

  predicate Contains(s: string, p: string) {
    HasPrefix(s, p) || (s != "" && Contains(s[1..], p))
  }

  predicate IsDigit(c: char) { '0' <= c <= '9' }

  function Digits(s: string): string {
    if s != "" && IsDigit(s[0]) then [s[0]] + Digits(s[1..]) else ""
  }

  /** The regular expression's own white space. */
  function SkipBlank(s: string): string {
    if s != ""
       && (s[0] == ' ' || s[0] == '\t' || s[0] == '\n' || s[0] == '\r' || s[0] == 0x0C as char)
    then SkipBlank(s[1..]) else s
  }

  /** The first run of digits that "gb" follows, blanks apart. */
  function Capacity(s: string): Option<string>
    decreases |s|
  {
    if s == "" then None
    else
      var d := Digits(s);
      DigitsArePrefix(s);
      if d != "" && HasPrefix(SkipBlank(s[|d|..]), "gb") then Some(d)
      else Capacity(s[if d == "" then 1 else |d|..])
  }

  lemma DigitsArePrefix(s: string)
    ensures |Digits(s)| <= |s|
  {
  }

  /** The 80 GB and 40 GB boards are told apart by capacity, 40 GB being the default. */
  function A100Key(n: string): string {
    if Capacity(n) == Some("80") then "a100-80gb" else "a100-40gb"
  }

  /** The H100 boards are told apart by form factor, SXM being the default. */
  function H100Key(n: string): string {
    if Contains(n, "nvl") then "h100-nvl"
    else if Contains(n, "pcie") || Contains(n, "pci-e") then "h100-pcie"
    else "h100-sxm"
  }

  const A100 := "a100"
  const H100 := "h100"

  /** The table's key for a bare name, if the name is recognised. */
  function KeyOf(t: Table, n: string): Option<string> {
    if n == "" then None
    else if n in t then Some(n)
    else if Leads(A100, n) then Some(A100Key(n))
    else if HasPrefix(n, H100) then Some(H100Key(n))
    else Longest(t, n)
  }

  function ModelPeak(t: Table, model: string): Option<PeakEntry> {
    var k := KeyOf(t, Bare(model));
    if k.None? then None else Some(At(t, k.value))
  }

  method MatchModelPeak(t: Table, model: string) returns (r: Option<PeakEntry>)
    ensures r == ModelPeak(t, model)
  {
    var n := Bare(model);
    if n == "" {
      return None;
    }
    if n in t {
      return Some(t[n]);
    }
    LeadsInWords(A100, n);
    if n == A100 || HasPrefix(n, A100 + "-") || HasPrefix(n, A100 + " ") {
      var k := PickA100(n);
      return Some(At(t, k));
    }
    if HasPrefix(n, H100) {
      var k := PickH100(n);
      return Some(At(t, k));
    }
    var best := SearchLongest(t, n);
    LongestFromIsLongest(t, n, |n|);
    if best != "" {
      return Some(t[best]);
    }
    r := None;
  }

  method PickA100(n: string) returns (k: string)
    ensures k == A100Key(n)
  {
    var c := Capacity(n);
    if c == Some("80") {
      return "a100-80gb";
    }
    if c == Some("40") {
      return "a100-40gb";
    }
    k := "a100-40gb";
  }

  method PickH100(n: string) returns (k: string)
    ensures k == H100Key(n)
  {
    if Contains(n, "nvl") {
      return "h100-nvl";
    }
    if Contains(n, "pcie") || Contains(n, "pci-e") {
      return "h100-pcie";
    }
    k := "h100-sxm";
  }

  // ---- what the rules look for

  /** p occurs in s. */
  predicate OccursIn(p: string, s: string) {
    exists i :: 0 <= i <= |s| && HasPrefix(s[i..], p)
  }

  lemma {:induction false} ContainsIff(s: string, p: string)
    ensures Contains(s, p) <==> OccursIn(p, s)
  {
    assert s[0..] == s;
    if s != "" {
      var t := s[1..];
      ContainsIff(t, p);
      assert forall i :: 0 <= i <= |t| ==> t[i..] == s[i + 1..];
      if i :| 0 <= i <= |s| && HasPrefix(s[i..], p) {
        assert i > 0 ==> s[i..] == t[i - 1..];
      }
    }
  }

  predicate IsBlank(c: char) {
    c == ' ' || c == '\t' || c == '\n' || c == '\r' || c == 0x0C as char
  }

  predicate GbAt(s: string, k: nat) {
    k + 1 < |s| && s[k] == 'g' && s[k + 1] == 'b'
  }

  predicate BlankBetween(s: string, i: nat, k: nat) {
    i <= k <= |s| && forall b :: i <= b < k ==> IsBlank(s[b])
  }

  /** From i on, s reads "gb" after blanks. */
  ghost predicate GbFollows(s: string, i: nat) {
    exists k: nat :: GbAt(s, k) && BlankBetween(s, i, k)
  }

  /** The characters from i to j are digits, with none on either side, that "gb" follows. */
  ghost predicate CapacityAt(s: string, i: nat, j: nat) {
    && i < j && DigitsBetween(s, i, j)
    && (i > 0 ==> !IsDigit(s[i - 1])) && (j < |s| ==> !IsDigit(s[j]))
    && GbFollows(s, j)
  }

  lemma {:induction false} GbAfterBlanks(s: string)
    ensures HasPrefix(SkipBlank(s), "gb") <==> GbFollows(s, 0)
  {
    if s != "" && IsBlank(s[0]) {
      GbAfterBlanks(s[1..]);
      GbShifts(s, 1, 0);
      if k: nat :| GbAt(s, k) && BlankBetween(s, 0, k) {
        assert BlankBetween(s, 1, k);
      }
      if k: nat :| GbAt(s, k) && BlankBetween(s, 1, k) {
        assert BlankBetween(s, 0, k);
      }
    } else {
      GbIsPrefix(s);
      if k: nat :| GbAt(s, k) && BlankBetween(s, 0, k) {
        assert k == 0;
      }
      assert GbAt(s, 0) ==> BlankBetween(s, 0, 0);
    }
  }

  lemma GbIsPrefix(s: string)
    ensures HasPrefix(s, "gb") <==> GbAt(s, 0)
  {
    if |s| >= 2 {
      assert s[..2] == [s[0], s[1]];
    }
  }

  lemma GbShifts(s: string, n: nat, i: nat)
    requires n <= |s|
    ensures GbFollows(s[n..], i) <==> GbFollows(s, n + i)
  {
    var t := s[n..];
    if k: nat :| GbAt(t, k) && BlankBetween(t, i, k) {
      BlanksShift(s, n, i, k);
      assert GbAt(s, n + k);
    }
    if k: nat :| GbAt(s, k) && BlankBetween(s, n + i, k) {
      BlanksShift(s, n, i, k - n);
      assert GbAt(t, k - n);
    }
  }

  lemma BlanksShift(s: string, n: nat, i: nat, k: nat)
    requires n <= |s|
    ensures BlankBetween(s[n..], i, k) <==> BlankBetween(s, n + i, n + k)
  {
    var t := s[n..];
    if BlankBetween(t, i, k) {
      forall b | n + i <= b < n + k ensures IsBlank(s[b]) {
        assert s[b] == t[b - n];
      }
    }
    if BlankBetween(s, n + i, n + k) {
      forall b | i <= b < k ensures IsBlank(t[b]) {
        assert t[b] == s[n + b];
      }
    }
  }

  predicate DigitsBetween(s: string, i: nat, j: nat) {
    i <= j <= |s| && forall d :: i <= d < j ==> IsDigit(s[d])
  }

  /** A place between digits: none before it, or none after. */
  predicate Seam(s: string, n: nat) {
    n <= |s| && (0 < n < |s| ==> !IsDigit(s[n]) || !IsDigit(s[n - 1]))
  }

  /** Dropping what stands before a seam moves the runs. */
  lemma CapacityShifts(s: string, n: nat, i: nat, j: nat)
    requires Seam(s, n)
    ensures CapacityAt(s[n..], i, j) <==> CapacityAt(s, n + i, n + j)
  {
    GbShifts(s, n, j);
    DigitsShift(s, n, i, j);
    var t := s[n..];
    assert n + i < |s| ==> t[i] == s[n + i];
    assert n + j < |s| ==> t[j] == s[n + j];
    assert 0 < i && n + i <= |s| ==> t[i - 1] == s[n + i - 1];
  }

  lemma DigitsShift(s: string, n: nat, i: nat, j: nat)
    requires n <= |s|
    ensures DigitsBetween(s[n..], i, j) <==> DigitsBetween(s, n + i, n + j)
  {
    var t := s[n..];
    if DigitsBetween(t, i, j) {
      forall d | n + i <= d < n + j ensures IsDigit(s[d]) {
        assert s[d] == t[d - n];
      }
    }
    if DigitsBetween(s, n + i, n + j) {
      forall d | i <= d < j ensures IsDigit(t[d]) {
        assert t[d] == s[n + d];
      }
    }
  }

  lemma {:induction false} DigitsAreARun(s: string)
    ensures var d := Digits(s);
            && d <= s && (forall i :: 0 <= i < |d| ==> IsDigit(s[i])) && (|d| < |s| ==> !IsDigit(s[|d|]))
  {
    if s != "" && IsDigit(s[0]) {
      DigitsAreARun(s[1..]);
      assert s == [s[0]] + s[1..];
    }
  }

  /** Of all such runs, the one from i to j is the first. */
  ghost predicate FirstCapacityAt(s: string, i: nat, j: nat) {
    CapacityAt(s, i, j) && forall k: nat, l: nat :: CapacityAt(s, k, l) ==> i <= k
  }

  /** r is the first such run, if there is one. */
  ghost predicate IsCapacity(s: string, r: Option<string>) {
    if r.None? then forall i: nat, j: nat :: !CapacityAt(s, i, j)
    else exists i: nat, j: nat :: FirstCapacityAt(s, i, j) && r.value == s[i..j]
  }

  lemma {:induction false} CapacityIsFirst(s: string)
    ensures IsCapacity(s, Capacity(s))
    decreases |s|
  {
    if s != "" {
      var d := Digits(s);
      DigitsAreARun(s);
      GbAfterBlanks(s[|d|..]);
      GbShifts(s, |d|, 0);
      if d != "" && GbFollows(s, |d|) {
        assert DigitsBetween(s, 0, |d|);
        assert FirstCapacityAt(s, 0, |d|) && s[0..|d|] == d;
      } else {
        var n := if d == "" then 1 else |d|;
        CapacityIsFirst(s[n..]);
        OnlyLaterRuns(s, d, n);
        SeamAfterDigits(s, d, n);
        LaterCapacity(s, n, Capacity(s[n..]));
      }
    }
  }

  lemma OnlyLaterRuns(s: string, d: string, n: nat)
    requires s != "" && d == Digits(s) && (d != "" ==> !GbFollows(s, |d|)) && n == if d == "" then 1 else |d|
    ensures n <= |s|
    ensures forall i: nat, j: nat :: CapacityAt(s, i, j) ==> i >= n && CapacityAt(s[n..], i - n, j - n)
  {
    SeamAfterDigits(s, d, n);
    forall i: nat, j: nat | CapacityAt(s, i, j) ensures i >= n && CapacityAt(s[n..], i - n, j - n) {
      RunsAreLater(s, d, i, j);
      LaterRun(s, n, i, j);
    }
  }

  lemma SeamAfterDigits(s: string, d: string, n: nat)
    requires s != "" && d == Digits(s) && n == if d == "" then 1 else |d|
    ensures Seam(s, n)
  {
    DigitsAreARun(s);
  }

  lemma LaterRun(s: string, n: nat, i: nat, j: nat)
    requires Seam(s, n) && CapacityAt(s, i, j) && i >= n
    ensures CapacityAt(s[n..], i - n, j - n)
  {
    CapacityShifts(s, n, i - n, j - n);
  }

  /** A run does not begin within digits that "gb" does not follow. */
  lemma RunsAreLater(s: string, d: string, i: nat, j: nat)
    requires s != "" && d == Digits(s) && CapacityAt(s, i, j) && (d != "" ==> !GbFollows(s, |d|))
    ensures i >= if d == "" then 1 else |d|
  {
    DigitsAreARun(s);
  }

  lemma LaterCapacity(s: string, n: nat, r: Option<string>)
    requires 0 < n && Seam(s, n)
    requires IsCapacity(s[n..], r)
    requires forall i: nat, j: nat :: CapacityAt(s, i, j) ==> i >= n && CapacityAt(s[n..], i - n, j - n)
    ensures IsCapacity(s, r)
  {
    if r.Some? {
      var i: nat, j: nat :| FirstCapacityAt(s[n..], i, j) && r.value == s[n..][i..j];
      CapacityShifts(s, n, i, j);
      assert FirstCapacityAt(s, n + i, n + j) && s[n + i..n + j] == r.value;
    }
  }

  lemma A100ByCapacity(n: string)
    ensures IsCapacity(n, Capacity(n))
    ensures A100Key(n) == if Capacity(n) == Some("80") then "a100-80gb" else "a100-40gb"
    ensures Leads(A100, n) <==> n == "a100" || HasPrefix(n, "a100 ") || HasPrefix(n, "a100-")
  {
    CapacityIsFirst(n);
    LeadsInWords(A100, n);
  }

  lemma H100ByForm(n: string)
    ensures H100Key(n) == if OccursIn("nvl", n) then "h100-nvl"
                          else if OccursIn("pcie", n) || OccursIn("pci-e", n) then "h100-pcie" else "h100-sxm"
  {
    ContainsIff(n, "nvl");
    ContainsIff(n, "pcie");
    ContainsIff(n, "pci-e");
  }

  /** The key for a bare name: the name itself; for the A100, by the first capacity named;
      for the H100, by the form factor named anywhere; else the longest key that leads it. */
  lemma KeyOfIsExact(t: Table, n: string)
    ensures IsCapacity(n, Capacity(n))
    ensures var r := KeyOf(t, n);
            if n == "" then r == None
            else if n in t then r == Some(n)
            else if n == "a100" || HasPrefix(n, "a100 ") || HasPrefix(n, "a100-") then
              r == Some(if Capacity(n) == Some("80") then "a100-80gb" else "a100-40gb")
            else if HasPrefix(n, "h100") then
              r == Some(if OccursIn("nvl", n) then "h100-nvl"
                        else if OccursIn("pcie", n) || OccursIn("pci-e", n) then "h100-pcie" else "h100-sxm")
            else IsLongest(t.Keys, n, r)
  {
    A100ByCapacity(n);
    H100ByForm(n);
    LongestFromIsLongest(t, n, |n|);
  }

  // ---- what matching promises

  /** The table holds the keys that the A100 and H100 rules name. */
  predicate HasFamilies(t: Table) {
    "a100-40gb" in t && "a100-80gb" in t && "h100-sxm" in t && "h100-pcie" in t && "h100-nvl" in t
  }

  lemma KeysAreTheTables(t: Table, n: string)
    requires HasFamilies(t)
    ensures var k := KeyOf(t, n); k.Some? ==> k.value in t
  {
    LongestFromIsLongest(t, n, |n|);
    assert A100Key(n) in t && H100Key(n) in t;
  }

  /** Every recognised name resolves to an entry of the table: no peak is invented. */
  lemma MatchesAreTheTables(t: Table, model: string)
    requires HasFamilies(t)
    ensures var r := ModelPeak(t, model); r.Some? ==> r.value in t.Values
  {
    var n := Bare(model);
    KeysAreTheTables(t, n);
  }

  /** The token a name is recognised by. */
  function Recognised(t: Table, n: string): Option<string> {
    if n == "" then None
    else if n in t then Some(n)
    else if Leads(A100, n) then Some(A100)
    else if HasPrefix(n, H100) then Some(H100)
    else Longest(t, n)
  }

  /** "h100" with more of a word attached. */
  predicate Glued(t: Table, n: string) {
    n !in t && HasPrefix(n, H100) && !Boundary(n, |H100|)
  }

  /** Names are recognised by a whole leading token, except for those that merely begin
      with "h100"; and a name that no key leads, nor one of the two families, is unknown. */
  lemma RecognisedByTokenIff(t: Table, n: string)
    ensures var r := Recognised(t, n);
            && (r.Some? <==> KeyOf(t, n).Some?)
            && (r.Some? ==> (Leads(r.value, n) <==> !Glued(t, n)))
            && (r.None? ==> forall k :: k in t && Leads(k, n) ==> k == "")
  {
    LongestFromIsLongest(t, n, |n|);
    assert n in t ==> Leads(n, n);
    assert Leads(A100, n) ==> n[0] == 'a' && !HasPrefix(n, H100);
    assert Leads(H100, n) <==> HasPrefix(n, H100) && Boundary(n, |H100|);
  }

  /** So such a name gets the peak of an H100, and "h1000" is such a name for every table
      that does not know it. */
  lemma GluedIsGuessed(t: Table, model: string)
    requires Glued(t, Bare(model))
    ensures ModelPeak(t, model) == Some(At(t, H100Key(Bare(model))))
  {
    RecognisedByTokenIff(t, Bare(model));
  }

  lemma H1000IsGlued(t: Table)
    requires "h1000" !in t
    ensures Glued(t, Bare("h1000"))
  {
    H1000IsBare();
  }

  lemma {:induction false} LowerFixed(s: string)
    requires forall i :: 0 <= i < |s| ==> !('A' <= s[i] <= 'Z')
    ensures Spec.Lower(s) == s
  {
    if s != "" {
      LowerFixed(s[1..]);
      assert s == [s[0]] + s[1..];
    }
  }

  lemma NotStripped(n: string, p: string)
    requires Trimmed(n) && n != "" && p != "" && n[0] != p[0]
    ensures TrimPrefix(n, p) == n && StripWord(n, p) == n
  {
    TrimmedIsFixed(n);
  }

  /** A trimmed lower-case name that starts like no prefix is bare. */
  lemma BareIsFixed(n: string)
    requires Trimmed(n) && n != "" && n[0] != 'n' && n[0] != 't' && n[0] != 'r' && n[0] != 'q'
    requires forall i :: 0 <= i < |n| ==> !('A' <= n[i] <= 'Z')
    ensures Bare(n) == n
  {
    TrimmedIsFixed(n);
    LowerFixed(n);
    assert Spec.VENDOR[0] == 'n';
    NotStripped(n, Spec.VENDOR);
    assert Spec.NormModel(n) == n;
    NotStripped(n, "tesla ");
    NotStripped(n, "rtx ");
    NotStripped(n, "quadro ");
  }

  /** A bare name stays one, whatever vendor and line are put in front of it. */
  lemma PrefixesAreStripped(v: string, p: string, x: string)
    requires v == "" || v == "nvidia "
    requires p == "" || p == "tesla " || p == "rtx " || p == "quadro "
    requires Trimmed(x) && x != "" && x[0] != 'n' && x[0] != 't' && x[0] != 'r' && x[0] != 'q'
    requires forall i :: 0 <= i < |x| ==> !('A' <= x[i] <= 'Z')
    ensures Bare(v + (p + x)) == x
  {
    var m := p + x;
    assert p == "" ==> m == x;
    LowerFixed(m);
    assert m[|m| - 1] == x[|x| - 1];
    VendorIsStripped(v, m);
    StrippedOnce(m, p, x);
  }

  lemma VendorIsStripped(v: string, m: string)
    requires v == "" || v == "nvidia "
    requires Trimmed(m) && m != "" && m[0] != 'n' && Spec.Lower(m) == m
    ensures Spec.NormModel(v + m) == m
  {
    if v == "" {
      assert v + m == m;
      TrimmedIsFixed(m);
      NotStripped(m, Spec.VENDOR);
    } else {
      LowerFixed(Spec.VENDOR);
      VendorInFront(Spec.VENDOR, m);
    }
  }

  lemma VendorInFront(v: string, m: string)
    requires v == Spec.VENDOR && Spec.Lower(v) == v
    requires Trimmed(m) && m != "" && Spec.Lower(m) == m
    ensures Spec.NormModel(v + m) == m
  {
    var all := v + m;
    assert all[|all| - 1] == m[|m| - 1] && all[0] == v[0];
    TrimmedIsFixed(all);
    TrimmedIsFixed(m);
    LowerConcat(v, m);
    assert all[|v|..] == m;
  }

  lemma {:induction false} LowerConcat(a: string, b: string)
    ensures Spec.Lower(a + b) == Spec.Lower(a) + Spec.Lower(b)
  {
    if a == "" {
      assert a + b == b;
    } else {
      assert (a + b)[1..] == a[1..] + b;
      LowerConcat(a[1..], b);
    }
  }

  lemma StrippedOnce(m: string, p: string, x: string)
    requires m == p + x && Trimmed(x) && x != "" && x[0] != 't' && x[0] != 'r' && x[0] != 'q'
    requires p == "" || p == "tesla " || p == "rtx " || p == "quadro "
    requires Trimmed(m)
    ensures StripWord(StripWord(StripWord(m, "tesla "), "rtx "), "quadro ") == x
  {
    TrimmedIsFixed(x);
    TrimmedIsFixed(m);
    assert m[|p|..] == x;
    NotStripped(x, "tesla ");
    NotStripped(x, "rtx ");
    NotStripped(x, "quadro ");
    assert p == "" ==> m == x;
    assert p == "rtx " || p == "quadro " ==> m[0] != 't' && TrimPrefix(m, "tesla ") == m;
    assert p == "quadro " ==> TrimPrefix(m, "rtx ") == m;
  }

  lemma H1000IsBare()
    ensures Bare("h1000") == "h1000"
  {
    BareIsFixed("h1000");
  }

  /** A name no rule special-cases takes the most specific key that leads it. */
  lemma LongestKeyWins(t: Table, n: string, k: string)
    requires n !in t && !Leads(A100, n) && !HasPrefix(n, H100) && n != ""
    requires k in t && k != "" && Leads(k, n)
    ensures KeyOf(t, n).Some? && |k| <= |KeyOf(t, n).value| && HasPrefix(KeyOf(t, n).value, k)
  {
    LongestFromIsLongest(t, n, |n|);
  }

  lemma BuiltinIsComplete()
    ensures HasFamilies(BUILTIN)
    ensures forall k :: k in BUILTIN ==> BUILTIN[k].tflops > 0.0
    ensures BUILTIN["a100-40gb"].tflops == BUILTIN["a100-80gb"].tflops
  {
  }

  // ---- filling

  /** The table's answer for a device: none without a model. */
  function TablePeak(t: Table, w: DeviceWindow): Option<PeakEntry> {
    if w.model == "" then None else ModelPeak(t, w.model)
  }

  function FillFromTable(t: Table, w: DeviceWindow): DeviceWindow {
    var e := TablePeak(t, w);
    if w.peakKnown || e.None? then w else Spec.FillPeak(w, e.value.tflops)
  }

  /** The canonical model that supplies the window's peak, if one does. */
  function ModelUsed(t: Table, w: DeviceWindow): set<string> {
    var e := TablePeak(t, w);
    if w.peakKnown || e.None? then {} else {e.value.canonical}
  }

  function ModelsUsed(t: Table, ws: seq<DeviceWindow>): set<string> {
    if ws == [] then {} else ModelsUsed(t, ws[..|ws| - 1]) + ModelUsed(t, ws[|ws| - 1])
  }

  lemma ModelsStep(t: Table, ws: seq<DeviceWindow>, i: nat)
    requires i < |ws|
    ensures ModelsUsed(t, ws[..i + 1]) == ModelsUsed(t, ws[..i]) + ModelUsed(t, ws[i])
  {
    assert ws[..i + 1][..i] == ws[..i];
  }

  /** The window has no peak, and its model is recognised as m. */
  predicate Uses(t: Table, w: DeviceWindow, m: string) {
    !w.peakKnown && w.model != "" && match ModelPeak(t, w.model) case None => false case Some(e) => e.canonical == m
  }

  lemma UsedByWindow(t: Table, w: DeviceWindow, m: string)
    ensures m in ModelUsed(t, w) <==> Uses(t, w, m)
  {
  }

  function Used(t: Table): DeviceWindow -> set<string> {
    (w: DeviceWindow) => ModelUsed(t, w)
  }

  ghost predicate UnitesAs(f: seq<DeviceWindow> -> set<string>, used: DeviceWindow -> set<string>,
                           ws: seq<DeviceWindow>) {
    f(ws) == if ws == [] then {} else f(ws[..|ws| - 1]) + used(ws[|ws| - 1])
  }

  lemma {:induction false} UnionMember(f: seq<DeviceWindow> -> set<string>, used: DeviceWindow -> set<string>,
                                       ws: seq<DeviceWindow>, m: string)
    requires forall vs :: UnitesAs(f, used, vs)
    ensures m in f(ws) <==> exists i :: 0 <= i < |ws| && m in used(ws[i])
  {
    assert UnitesAs(f, used, ws);
    if ws != [] {
      var n := |ws| - 1;
      UnionMember(f, used, ws[..n], m);
      assert forall i :: 0 <= i < n ==> ws[..n][i] == ws[i];
    }
  }

  /** The models stamped are those whose datasheet peak some window without one took. */
  lemma ModelsAreUsed(t: Table, ws: seq<DeviceWindow>, m: string)
    ensures m in ModelsUsed(t, ws) <==> exists i :: 0 <= i < |ws| && Uses(t, ws[i], m)
  {
    var f := (vs: seq<DeviceWindow>) => ModelsUsed(t, vs);
    forall vs ensures UnitesAs(f, Used(t), vs) {
    }
    UnionMember(f, Used(t), ws, m);
    forall i | 0 <= i < |ws| ensures m in Used(t)(ws[i]) <==> Uses(t, ws[i], m) {
      UsedByWindow(t, ws[i], m);
    }
  }

  ghost predicate IsTableFill(t: Table, ws: seq<DeviceWindow>, rs: seq<DeviceWindow>) {
    && |rs| == |ws|
    && forall i :: 0 <= i < |ws| ==> rs[i] == FillFromTable(t, ws[i])
  }

  method TableFill(t: Table, enabled: bool, ws: seq<DeviceWindow>)
    returns (rs: seq<DeviceWindow>, stamp: Spec.Stamp, models: set<string>)
    ensures if enabled then IsTableFill(t, ws, rs) && models == ModelsUsed(t, ws) else rs == ws && models == {}
    ensures stamp == Spec.StampOf(ws, rs)
  {
    rs, stamp, models := ws, Spec.NO_STAMP, {};
    if !enabled {
      Spec.NothingStamped(ws);
      return;
    }
    for i := 0 to |ws|
      invariant |rs| == |ws|
      invariant forall k :: 0 <= k < i ==> rs[k] == FillFromTable(t, ws[k])
      invariant forall k :: i <= k < |ws| ==> rs[k] == ws[k]
      invariant stamp == Spec.StampOf(ws[..i], rs[..i])
      invariant models == ModelsUsed(t, ws[..i])
    {
      var r, more, model := FillWindow(t, rs[i], stamp);
      ghost var before := rs[..i];
      rs := rs[i := r];
      stamp := more;
      ModelsStep(t, ws, i);
      models := models + model;
      assert rs[..i] == before;
      Spec.StampStep(ws, rs, i);
    }
    assert ws[..|ws|] == ws && rs[..|rs|] == rs;
  }

  /** One window of the loop, and the model it used, if any. */
  method FillWindow(t: Table, dw: DeviceWindow, stamp: Spec.Stamp)
    returns (w: DeviceWindow, more: Spec.Stamp, models: set<string>)
    ensures w == FillFromTable(t, dw) && more == Spec.Stamped(stamp, dw, w)
    ensures models == ModelUsed(t, dw)
  {
    w, more, models := dw, stamp, {};
    if dw.peakKnown || dw.model == "" {
      return;
    }
    var m := MatchModelPeak(t, dw.model);
    if m.None? {
      return;
    }
    Spec.StampOfSupply(stamp, dw, m.value.tflops);
    w, more := Spec.SupplyPeak(dw, m.value.tflops, stamp);
    more := more.(filled := more.filled + multiset{w.uuid});
    models := {m.value.canonical};
  }
}
