/** The parts of Go's strings package that the parsers use. A char is a Unicode code
    point; IsSpace is unicode.IsSpace. */
module Text {

  predicate IsSpace(c: char) {
    || '\t' <= c <= '\r' || c == ' '
    || c == 0x85 as char || c == 0xA0 as char || c == 0x1680 as char
    || 0x2000 as char <= c <= 0x200A as char
    || c == 0x2028 as char || c == 0x2029 as char || c == 0x202F as char
    || c == 0x205F as char || c == 0x3000 as char
  }

  function TrimLeft(s: string): string {
    if s != "" && IsSpace(s[0]) then TrimLeft(s[1..]) else s
  }

  function TrimRight(s: string): string {
    if s != "" && IsSpace(s[|s| - 1]) then TrimRight(s[..|s| - 1]) else s
  }

  function TrimSpace(s: string): string {
    TrimRight(TrimLeft(s))
  }

  /** No space at either end. */
  predicate Trimmed(s: string) {
    s == "" || (!IsSpace(s[0]) && !IsSpace(s[|s| - 1]))
  }

  lemma TrimmedIsFixed(s: string)
    requires Trimmed(s)
    ensures TrimSpace(s) == s
  {
  }

  /** All white space. */
  predicate AllSpace(s: string) {
    forall i :: 0 <= i < |s| ==> IsSpace(s[i])
  }

  lemma {:induction false} LeftTrimmed(a: string, x: string)
    requires AllSpace(a) && (x == "" || !IsSpace(x[0]))
    ensures TrimLeft(a + x) == x
  {
    if a == "" {
      assert a + x == x;
    } else {
      assert (a + x)[1..] == a[1..] + x;
      LeftTrimmed(a[1..], x);
    }
  }

  lemma {:induction false} RightTrimmed(x: string, b: string)
    requires AllSpace(b) && (x == "" || !IsSpace(x[|x| - 1]))
    ensures TrimRight(x + b) == x
  {
    if b == "" {
      assert x + b == x;
    } else {
      assert (x + b)[..|x + b| - 1] == x + b[..|b| - 1];
      RightTrimmed(x, b[..|b| - 1]);
    }
  }

  lemma Unpadded(a: string, x: string, b: string)
    requires AllSpace(a) && AllSpace(b) && Trimmed(x) && x != ""
    ensures TrimSpace(a + x + b) == x
  {
    assert a + x + b == a + (x + b) && (x + b)[0] == x[0];
    LeftTrimmed(a, x + b);
    RightTrimmed(x, b);
  }

  function IndexOf(s: string, c: char): (i: nat)
    ensures i <= |s| && c !in s[..i]
    ensures i < |s| ==> s[i] == c
    ensures i == |s| <==> c !in s
  {
    if s == "" || s[0] == c then 0
    else
      var i := IndexOf(s[1..], c) + 1;
      assert s == [s[0]] + s[1..] && s[..i] == [s[0]] + s[1..][..i - 1];
      i
  }

  /** The index is the length of a c-free prefix that c follows. */
  lemma {:induction false} IndexAfter(a: string, c: char, b: string)
    requires c !in a
    ensures IndexOf(a + [c] + b, c) == |a|
  {
    if a != "" {
      assert (a + [c] + b)[1..] == a[1..] + [c] + b;
      IndexAfter(a[1..], c, b);
    }
  }

  predicate HasPrefix(s: string, p: string) {
    |p| <= |s| && s[..|p|] == p
  }

  predicate HasSuffix(s: string, p: string) {
    |p| <= |s| && s[|s| - |p|..] == p
  }

  function TrimPrefix(s: string, p: string): string {
    if HasPrefix(s, p) then s[|p|..] else s
  }

  function TrimSuffix(s: string, p: string): string {
    if HasSuffix(s, p) then s[..|s| - |p|] else s
  }

  // ---- TrimSpace on bytes, each a char below 256, that hold UTF-8 or what is left of it

  predicate IsSpaceByte(c: char) {
    '\t' <= c <= '\r' || c == ' '
  }

  predicate IsSpacePair(a: char, b: char) {
    a == 0xC2 as char && (b == 0x85 as char || b == 0xA0 as char)
  }

  predicate IsSpaceTriple(a: char, b: char, c: char) {
    || (a == 0xE1 as char && b == 0x9A as char && c == 0x80 as char)
    || (a == 0xE2 as char && b == 0x80 as char
        && (0x80 as char <= c <= 0x8A as char || c == 0xA8 as char || c == 0xA9 as char || c == 0xAF as char))
    || (a == 0xE2 as char && b == 0x81 as char && c == 0x9F as char)
    || (a == 0xE3 as char && b == 0x80 as char && c == 0x80 as char)
  }

  /** How many bytes the white space character takes with which s begins, if it does. */
  function LeadingSpace(s: string): (n: nat)
    ensures n <= |s|
  {
    if s == "" then 0
    else if IsSpaceByte(s[0]) then 1
    else if |s| >= 2 && IsSpacePair(s[0], s[1]) then 2
    else if |s| >= 3 && IsSpaceTriple(s[0], s[1], s[2]) then 3
    else 0
  }

  function TrailingSpace(s: string): (n: nat)
    ensures n <= |s|
  {
    var k := |s|;
    if s == "" then 0
    else if IsSpaceByte(s[k - 1]) then 1
    else if k >= 2 && IsSpacePair(s[k - 2], s[k - 1]) then 2
    else if k >= 3 && IsSpaceTriple(s[k - 3], s[k - 2], s[k - 1]) then 3
    else 0
  }

  function TrimLeftBytes(s: string): string
    decreases |s|
  {
    if LeadingSpace(s) == 0 then s else TrimLeftBytes(s[LeadingSpace(s)..])
  }

  function TrimRightBytes(s: string): string
    decreases |s|
  {
    if TrailingSpace(s) == 0 then s else TrimRightBytes(s[..|s| - TrailingSpace(s)])
  }

  function TrimBytes(s: string): string {
    TrimRightBytes(TrimLeftBytes(s))
  }
}
