/** The string operations the page script relies on: `toLowerCase`, `trim` and
    `includes`, restricted to ASCII letters and ASCII whitespace. */
module Text {

  predicate IsUpper(c: char) { 'A' <= c <= 'Z' }

  /** ASCII white space as `trim` removes it: space, tab, line feed, vertical tab,
      form feed and carriage return. */
  predicate IsSpace(c: char) {
    c == ' ' || c == '\t' || c == '\n' || c == '\r' || c as int == 11 || c as int == 12
  }

  predicate AllSpace(s: string) { forall i :: 0 <= i < |s| ==> IsSpace(s[i]) }

  function LowerChar(c: char): (r: char)
    ensures !IsUpper(r)
    ensures IsSpace(r) <==> IsSpace(c)
    ensures !IsUpper(c) ==> r == c
  {
    if IsUpper(c) then (c as int + 32) as char else c
  }

  /** `s.toLowerCase()`: every letter lower-cased, nothing else touched. */
  function Lower(s: string): (r: string)
    ensures |r| == |s|
    ensures forall i :: 0 <= i < |s| ==> r[i] == LowerChar(s[i])
  {
    seq(|s|, i requires 0 <= i < |s| => LowerChar(s[i]))
  }

  lemma LowerHasNoUpper(s: string)
    ensures forall i :: 0 <= i < |s| ==> !IsUpper(Lower(s)[i])
  {
  }

  /** Lower-casing twice is lower-casing once. */
  lemma LowerIdempotent(s: string)
    ensures Lower(Lower(s)) == Lower(s)
  {
  }

  lemma LowerSlice(s: string, i: nat, j: nat)
    requires i <= j <= |s|
    ensures Lower(s)[i..j] == Lower(s[i..j])
  {
  }

  /** `s.trimStart()`: the longest suffix of `s` that does not start with white space. */
  function TrimStart(s: string): (r: string)
    ensures |r| <= |s| && r == s[|s| - |r|..]
    ensures AllSpace(s[..|s| - |r|])
    ensures r == [] || !IsSpace(r[0])
  {
    if s != [] && IsSpace(s[0]) then TrimStart(s[1..]) else s
  }

  /** `s.trimEnd()`: the longest prefix of `s` that does not end with white space. */
  function TrimEnd(s: string): (r: string)
    ensures |r| <= |s| && r == s[..|r|]
    ensures AllSpace(s[|r|..])
    ensures r == [] || !IsSpace(r[|r| - 1])
  {
    if s != [] && IsSpace(s[|s| - 1]) then TrimEnd(s[..|s| - 1]) else s
  }

  /** `r` is `s` with white space stripped from both ends and nothing else. */
  ghost predicate IsTrimOf(s: string, r: string) {
    exists i :: TrimAt(s, r, i)
  }

  /** `r` sits at offset `i` of `s`, with only white space before and after it. */
  ghost predicate TrimAt(s: string, r: string, i: int) {
    0 <= i <= |s| - |r| && s[i..i + |r|] == r && AllSpace(s[..i]) && AllSpace(s[i + |r|..])
  }

  /** `s.trim()`: white space stripped from both ends. */
  function Trim(s: string): (r: string)
    ensures |r| <= |s|
    ensures r == [] || (!IsSpace(r[0]) && !IsSpace(r[|r| - 1]))
  {
    TrimEnd(TrimStart(s))
  }

  /** `Trim` removes white space from the two ends and nothing else. */
  lemma TrimStrips(s: string)
    ensures IsTrimOf(s, Trim(s))
  {
    var t := TrimStart(s);
    var r := TrimEnd(t);
    var i := |s| - |t|;
    assert s[i..i + |r|] == r;
    assert s[i + |r|..] == t[|r|..];
    assert TrimAt(s, r, i);
  }

  /** The trimmed form is unique: any two strings that trim `s` are equal. */
  lemma TrimUnique(s: string, r1: string, r2: string)
    requires IsTrimOf(s, r1) && IsTrimOf(s, r2)
    requires r1 == [] || (!IsSpace(r1[0]) && !IsSpace(r1[|r1| - 1]))
    requires r2 == [] || (!IsSpace(r2[0]) && !IsSpace(r2[|r2| - 1]))
    ensures r1 == r2
  {
    var i1 :| TrimAt(s, r1, i1);
    var i2 :| TrimAt(s, r2, i2);
    SpaceAround(s, r1, i1);
    SpaceAround(s, r2, i2);
    if r1 != [] && r2 != [] {
      assert i1 == i2;
      assert i1 + |r1| == i2 + |r2|;
    }
  }

  /** Around a trimmed infix everything is white space, and the ends of a
      non-empty infix are not. */
  lemma SpaceAround(s: string, r: string, i: nat)
    requires TrimAt(s, r, i)
    requires r == [] || (!IsSpace(r[0]) && !IsSpace(r[|r| - 1]))
    ensures forall k :: 0 <= k < i ==> IsSpace(s[k])
    ensures forall k :: i + |r| <= k < |s| ==> IsSpace(s[k])
    ensures r != [] ==> !IsSpace(s[i]) && !IsSpace(s[i + |r| - 1])
  {
    assert forall k :: 0 <= k < i ==> s[..i][k] == s[k];
    assert forall k :: i + |r| <= k < |s| ==> s[i + |r|..][k - i - |r|] == s[k];
    if r != [] {
      assert s[i..i + |r|][0] == s[i];
      assert s[i..i + |r|][|r| - 1] == s[i + |r| - 1];
    }
  }

  /** Trimming twice is trimming once. */
  lemma TrimIdempotent(s: string)
    ensures Trim(Trim(s)) == Trim(s)
  {
    var r := Trim(s);
    assert r[0..0 + |r|] == r && r[..0] == [] && r[|r|..] == [];
    assert TrimAt(r, r, 0);
    TrimStrips(r);
    TrimUnique(r, r, Trim(r));
  }

  /** Lower-casing and trimming commute, so `toLowerCase().trim()` and
      `trim().toLowerCase()` give the same query. */
  lemma LowerTrimCommute(s: string)
    ensures Trim(Lower(s)) == Lower(Trim(s))
  {
    var r := Trim(s);
    TrimStrips(s);
    var i :| TrimAt(s, r, i);
    LowerTrimAt(s, r, i);
    TrimStrips(Lower(s));
    TrimUnique(Lower(s), Trim(Lower(s)), Lower(r));
  }

  lemma LowerTrimAt(s: string, r: string, i: nat)
    requires TrimAt(s, r, i)
    ensures TrimAt(Lower(s), Lower(r), i)
  {
    var l, j := Lower(s), i + |r|;
    assert l[i..j] == Lower(r) by { LowerSlice(s, i, j); }
    assert AllSpace(l[..i]) by { LowerSlice(s, 0, i); LowerKeepsSpace(s[..i]); }
    assert AllSpace(l[j..]) by { LowerSlice(s, j, |s|); LowerKeepsSpace(s[j..]); }
  }

  lemma LowerKeepsSpace(s: string)
    requires AllSpace(s)
    ensures AllSpace(Lower(s))
  {
  }

  /** `needle` occurs somewhere in `hay`, as a contiguous run. */
  ghost predicate Occurs(needle: string, hay: string) {
    exists i :: OccursAt(needle, hay, i)
  }

  ghost predicate OccursAt(needle: string, hay: string, i: int) {
    0 <= i <= |hay| - |needle| && hay[i..i + |needle|] == needle
  }

  lemma OccursShift(hay: string, needle: string)
    requires |needle| <= |hay| && hay[..|needle|] != needle
    ensures Occurs(needle, hay) <==> Occurs(needle, hay[1..])
  {
    if Occurs(needle, hay) {
      var i :| OccursAt(needle, hay, i);
      assert i != 0;
      assert hay[1..][i - 1..i - 1 + |needle|] == needle;
      assert OccursAt(needle, hay[1..], i - 1);
    }
    if Occurs(needle, hay[1..]) {
      var i :| OccursAt(needle, hay[1..], i);
      assert hay[i + 1..i + 1 + |needle|] == needle;
      assert OccursAt(needle, hay, i + 1);
    }
  }

  /** `hay.includes(needle)`: a substring test; the empty needle is found everywhere. */
  function Includes(hay: string, needle: string): (r: bool)
    ensures r <==> Occurs(needle, hay)
    decreases |hay|
  {
    if |needle| > |hay| then false
    else if hay[..|needle|] == needle then (assert OccursAt(needle, hay, 0); true)
    else (OccursShift(hay, needle); Includes(hay[1..], needle))
  }

  lemma IncludesEmpty(hay: string)
    ensures Includes(hay, "")
  {
    assert OccursAt("", hay, 0);
  }

  /** Every character of a found needle is a character of the haystack. */
  lemma IncludesChars(hay: string, needle: string)
    requires Includes(hay, needle)
    ensures forall k :: 0 <= k < |needle| ==> needle[k] in hay
  {
    var i :| OccursAt(needle, hay, i);
    assert forall k :: 0 <= k < |needle| ==> needle[k] == hay[i + k];
  }

  /** A needle with a character the haystack lacks is not found. */
  lemma NotIncludes(hay: string, needle: string, k: nat)
    requires k < |needle| && needle[k] !in hay
    ensures !Includes(hay, needle)
  {
    if Includes(hay, needle) {
      IncludesChars(hay, needle);
    }
  }
}
