/**
 * The few Python `str` operations the lookup pipeline uses: `strip()`,
 * `lower()`, `upper()`, `replace(" ", "")`, `startswith` and the `in`
 * (substring) test. Case mapping covers the ASCII letters.
 */
module Text {
  import opened Subsequences

  /** Python's `str.isspace` for one character: the set `str.strip()` removes. */
  predicate IsSpace(c: char) {
    var n := c as int;
    (0x09 <= n <= 0x0D) || (0x1C <= n <= 0x20) || n == 0x85 || n == 0xA0 || n == 0x1680
    || (0x2000 <= n <= 0x200A) || n == 0x2028 || n == 0x2029 || n == 0x202F || n == 0x205F
    || n == 0x3000
  }

  predicate IsUpperAscii(c: char) { 'A' <= c <= 'Z' }

  predicate IsLowerAscii(c: char) { 'a' <= c <= 'z' }

  function LowerChar(c: char): char {
    if IsUpperAscii(c) then (c as int + 32) as char else c
  }

  function UpperChar(c: char): char {
    if IsLowerAscii(c) then (c as int - 32) as char else c
  }

  /** `s.lower()` */
  function Lower(s: string): string {
    seq(|s|, i requires 0 <= i < |s| => LowerChar(s[i]))
  }

  /** `s.upper()` */
  function Upper(s: string): string {
    seq(|s|, i requires 0 <= i < |s| => UpperChar(s[i]))
  }

  /** `s.startswith(p)` */
  predicate StartsWith(s: string, p: string) {
    |p| <= |s| && s[..|p|] == p
  }

  /** Python's `q in s` for strings: `q` occurs somewhere in `s` as a contiguous piece. */
  predicate Contains(s: string, q: string) {
    exists i | 0 <= i <= |s| :: StartsWith(s[i..], q)
  }

  /** Which characters of `s` are something other than the ordinary space. */
  function NonSpaceMask(s: string): (m: seq<bool>)
    ensures |m| == |s|
  {
    seq(|s|, i requires 0 <= i < |s| => s[i] != ' ')
  }

  /** `s.replace(" ", "")`: every ordinary space removed. */
  function RemoveSpaces(s: string): (r: string)
    ensures |r| <= |s|
    ensures forall k :: 0 <= k < |r| ==> r[k] != ' '
    ensures (forall k :: 0 <= k < |s| ==> s[k] != ' ') ==> r == s
    decreases |s|
  {
    if |s| == 0 then ""
    else
      var n := |s| - 1;
      assert s[..n] + [s[n]] == s;
      RemoveSpaces(s[..n]) + (if s[n] == ' ' then "" else [s[n]])
  }

  /**
   * What `replace(" ", "")` keeps: exactly the characters of `s` other than the
   * ordinary space, in their original order.
   */
  lemma {:induction false} RemoveSpacesKeepsTheRest(s: string)
    ensures RemoveSpaces(s) == Select(s, NonSpaceMask(s))
    decreases |s|
  {
    if |s| > 0 {
      var n := |s| - 1;
      RemoveSpacesKeepsTheRest(s[..n]);
      assert NonSpaceMask(s)[..n] == NonSpaceMask(s[..n]);
    }
  }

  /** How many whitespace characters `s` starts with. */
  function LeadingSpaces(s: string): (n: nat)
    ensures n <= |s|
    ensures forall k :: 0 <= k < n ==> IsSpace(s[k])
    ensures n < |s| ==> !IsSpace(s[n])
  {
    if |s| > 0 && IsSpace(s[0]) then 1 + LeadingSpaces(s[1..]) else 0
  }

  /** How many whitespace characters `s` ends with. */
  function TrailingSpaces(s: string): (n: nat)
    ensures n <= |s|
    ensures forall k :: |s| - n <= k < |s| ==> IsSpace(s[k])
    ensures n < |s| ==> !IsSpace(s[|s| - n - 1])
  {
    if |s| > 0 && IsSpace(s[|s| - 1]) then 1 + TrailingSpaces(s[..|s| - 1]) else 0
  }

  /**
   * `s.strip()`: the piece of `s` left after removing its leading and then its
   * trailing whitespace. What is removed is whitespace, and what is left starts
   * and ends with a non-whitespace character (or is empty).
   */
  function Strip(s: string): (r: string)
    ensures LeadingSpaces(s) + |r| <= |s|
    ensures r == s[LeadingSpaces(s)..LeadingSpaces(s) + |r|]
    ensures forall k :: 0 <= k < LeadingSpaces(s) ==> IsSpace(s[k])
    ensures forall k :: LeadingSpaces(s) + |r| <= k < |s| ==> IsSpace(s[k])
    ensures r != [] ==> !IsSpace(r[0]) && !IsSpace(r[|r| - 1])
  {
    var t := s[LeadingSpaces(s)..];
    t[..|t| - TrailingSpaces(t)]
  }

  /** Lower-casing distributes over concatenation. */
  lemma LowerConcat(a: string, b: string)
    ensures Lower(a + b) == Lower(a) + Lower(b)
  {
  }

  /** Lower-casing is idempotent: a lower-cased text has no upper-case letter left. */
  lemma LowerIdempotent(s: string)
    ensures Lower(Lower(s)) == Lower(s)
    ensures forall k :: 0 <= k < |Lower(s)| ==> !IsUpperAscii(Lower(s)[k])
  {
  }

  /** Upper-casing forgets the case of the input, so upper(lower(s)) == upper(s). */
  lemma UpperIgnoresCase(s: string)
    ensures Upper(Lower(s)) == Upper(s)
    ensures Upper(Upper(s)) == Upper(s)
  {
  }

  /** Upper-casing neither creates nor removes spaces. */
  lemma UpperKeepsSpaces(s: string)
    ensures forall k :: 0 <= k < |s| ==> (Upper(s)[k] == ' ' <==> s[k] == ' ')
  {
  }

  /** A prefix is in particular a substring. */
  lemma PrefixIsContained(s: string, p: string)
    requires StartsWith(s, p)
    ensures Contains(s, p)
  {
    assert s[0..] == s;
  }

  /** A prefix of the first part of a concatenation is a prefix of the whole. */
  lemma StartsWithConcat(a: string, b: string, p: string)
    requires StartsWith(a, p)
    ensures StartsWith(a + b, p)
  {
  }
}
