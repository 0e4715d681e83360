/** The few operations on Python `str` that the service's decision logic uses,
    with CPython's semantics for the corner cases the service can reach:
    `find` with a negative start, slicing with a `-1` bound, `strip` over
    Unicode whitespace.  `lower` is modelled on ASCII letters only. */
module PyString {

  /** `c.isspace()` as CPython defines it for a single character. */
  predicate IsSpace(c: char) {
    || c == ' ' || ('\t' <= c <= '\r') || ('\U{1C}' <= c <= '\U{1F}')
    || c == '\U{85}' || c == '\U{A0}' || c == '\U{1680}'
    || ('\U{2000}' <= c <= '\U{200A}') || c == '\U{2028}' || c == '\U{2029}'
    || c == '\U{202F}' || c == '\U{205F}' || c == '\U{3000}'
  }

  predicate IsUpper(c: char) { 'A' <= c <= 'Z' }

  predicate IsAlpha(c: char) { 'A' <= c <= 'Z' || 'a' <= c <= 'z' }

  function LowerChar(c: char): char {
    if IsUpper(c) then (c as int + 32) as char else c
  }

  /** `s.lower()` on ASCII letters; every other character is kept. */
  function Lower(s: string): (r: string)
    ensures |r| == |s|
    ensures forall i :: 0 <= i < |s| ==> r[i] == LowerChar(s[i])
    ensures forall i :: 0 <= i < |r| ==> !IsUpper(r[i])
  {
    if s == [] then [] else [LowerChar(s[0])] + Lower(s[1..])
  }

  /** `sub` occurs in `s` starting at index `i`. */
  predicate OccursAt(s: string, sub: string, i: int) {
    0 <= i && i + |sub| <= |s| && s[i..i + |sub|] == sub
  }

  /** The lowest index `>= k` at which `sub` occurs in `s`, or -1. */
  function FindFrom(s: string, sub: string, k: nat): (r: int)
    decreases |s| - k
    ensures r == -1 || (k <= r && OccursAt(s, sub, r))
    ensures r == -1 <==> forall i :: k <= i ==> !OccursAt(s, sub, i)
    ensures r != -1 ==> forall i :: k <= i < r ==> !OccursAt(s, sub, i)
  {
    if k + |sub| > |s| then -1
    else if s[k..k + |sub|] == sub then k
    else FindFrom(s, sub, k + 1)
  }

  /** How `str.find` reads its `start` argument: a negative start counts from
      the end of the string and is clipped at 0. */
  function FindStart(start: int, n: nat): nat {
    if start >= 0 then start else if n + start < 0 then 0 else n + start
  }

  /** `s.find(sub, start)`: the lowest index at or after the adjusted start at
      which `sub` occurs, or -1 when there is none. */
  function Find(s: string, sub: string, start: int): (r: int)
    ensures r == -1 || (FindStart(start, |s|) <= r && OccursAt(s, sub, r))
    ensures r == -1 <==> forall i :: FindStart(start, |s|) <= i ==> !OccursAt(s, sub, i)
    ensures r != -1 ==> forall i :: FindStart(start, |s|) <= i < r ==> !OccursAt(s, sub, i)
  {
    FindFrom(s, sub, FindStart(start, |s|))
  }

  /** `sub in s`. */
  predicate Contains(s: string, sub: string)
    ensures Contains(s, sub) <==> exists i :: OccursAt(s, sub, i)
  {
    FindFrom(s, sub, 0) != -1
  }

  /** How a slice bound is read: a negative bound counts from the end, and
      every bound is clipped to `0..n`. */
  function SliceIndex(i: int, n: nat): (r: nat)
    ensures r <= n
  {
    if i < 0 then (if n + i < 0 then 0 else n + i) else if i > n then n else i
  }

  /** `s[i:j]`. */
  function Slice(s: string, i: int, j: int): (r: string)
    ensures |r| <= |s|
  {
    var a, b := SliceIndex(i, |s|), SliceIndex(j, |s|);
    if a < b then s[a..b] else []
  }

  /** `s.lstrip()`. */
  function TrimLeft(s: string): (r: string)
    ensures |r| <= |s| && r == s[|s| - |r|..]
    ensures r == [] || !IsSpace(r[0])
    ensures forall i :: 0 <= i < |s| - |r| ==> IsSpace(s[i])
  {
    if s != [] && IsSpace(s[0]) then TrimLeft(s[1..]) else s
  }

  /** `s.rstrip()`. */
  function TrimRight(s: string): (r: string)
    ensures |r| <= |s| && r == s[..|r|]
    ensures r == [] || !IsSpace(r[|r| - 1])
    ensures forall i :: |r| <= i < |s| ==> IsSpace(s[i])
  {
    if s != [] && IsSpace(s[|s| - 1]) then TrimRight(s[..|s| - 1]) else s
  }

  /** `s.strip()`: the longest middle part of `s` that neither starts nor ends
      with whitespace, after dropping only whitespace on either side. */
  function Strip(s: string): (r: string)
    ensures r == [] || (!IsSpace(r[0]) && !IsSpace(r[|r| - 1]))
    ensures |r| <= |s|
  {
    TrimRight(TrimLeft(s))
  }

  /** Whitespace in front does not change what `strip` returns. */
  lemma StripSkipsLeadingSpace(c: char, s: string)
    requires IsSpace(c)
    ensures Strip([c] + s) == Strip(s)
  {
    assert ([c] + s)[1..] == s;
  }

  /** `s.startswith(p)`. */
  predicate StartsWith(s: string, p: string) {
    |p| <= |s| && s[..|p|] == p
  }

  /** `sep.join(parts)`. */
  function Join(parts: seq<string>, sep: string): string {
    if parts == [] then ""
    else if |parts| == 1 then parts[0]
    else parts[0] + sep + Join(parts[1..], sep)
  }

  /** `s.split(c, 1)[0]`: the text before the first `c`, or all of `s`. */
  function Before(s: string, c: char): (r: string)
    ensures StartsWith(s, r)
    ensures forall i :: 0 <= i < |r| ==> r[i] != c
    ensures |r| < |s| ==> s[|r|] == c
  {
    var k := FindFrom(s, [c], 0);
    assert forall i :: 0 <= i < |s| && s[i] == c ==> OccursAt(s, [c], i);
    if k < 0 then s else s[..k]
  }

  /** `s.split(c, 1)[1]` when `c` occurs in `s`: the text after the first `c`. */
  function After(s: string, c: char): (r: string)
    requires c in s
    ensures s == Before(s, c) + [c] + r
  {
    var b := Before(s, c);
    assert |b| < |s| by {
      var i :| 0 <= i < |s| && s[i] == c;
    }
    assert s == b + [c] + s[|b| + 1..];
    s[|b| + 1..]
  }

  /** `str(n)` for an integer. */
  function IntToString(n: int): (r: string)
    ensures r != []
  {
    if n < 0 then "-" + NatToString(-n) else NatToString(n)
  }

  function NatToString(n: nat): (r: string)
    ensures r != []
    ensures forall i :: 0 <= i < |r| ==> '0' <= r[i] <= '9'
  {
    var d := ['0' + (n % 10) as char];
    if n < 10 then d else NatToString(n / 10) + d
  }
}
