/**
  The ASCII part of Python's `str.lower()` and `str.strip()`, used to
  normalise search topics (`topic.lower().strip()`).
*/
module Text {

  /** `str.isspace()` on ASCII: tab, line feed, vertical tab, form feed,
      carriage return, the separators 0x1C-0x1F, and space. */
  predicate IsSpace(c: char) {
    9 <= c as int <= 13 || 28 <= c as int <= 32
  }

  predicate IsUpper(c: char) {
    'A' <= c <= 'Z'
  }

  /** Lower-cases one ASCII letter; every other character is kept. */
  function LowerChar(c: char): (d: char)
    ensures !IsUpper(d)
    ensures IsUpper(c) ==> d as int == c as int + 32
    ensures !IsUpper(c) ==> d == c
    ensures IsSpace(d) <==> IsSpace(c)
  {
    if IsUpper(c) then (c as int + 32) as char else c
  }

  function Lower(s: string): (r: string)
    ensures |r| == |s|
    ensures forall i :: 0 <= i < |s| ==> r[i] == LowerChar(s[i])
  {
    seq(|s|, i requires 0 <= i < |s| => LowerChar(s[i]))
  }

  /** The number of whitespace characters that open `s`. */
  function LeadingSpace(s: string): (n: nat)
    ensures n <= |s|
    ensures forall i :: 0 <= i < n ==> IsSpace(s[i])
    ensures n < |s| ==> !IsSpace(s[n])
  {
    if |s| > 0 && IsSpace(s[0]) then 1 + LeadingSpace(s[1..]) else 0
  }

  /** The number of whitespace characters that close `s`. */
  function TrailingSpace(s: string): (n: nat)
    ensures n <= |s|
    ensures forall i :: |s| - n <= i < |s| ==> IsSpace(s[i])
    ensures n < |s| ==> !IsSpace(s[|s| - 1 - n])
  {
    if |s| > 0 && IsSpace(s[|s| - 1]) then 1 + TrailingSpace(s[..|s| - 1]) else 0
  }

  /** `str.strip()`: the longest slice of `s` that neither starts nor ends
      with whitespace, obtained by dropping only whitespace on either side. */
  function Strip(s: string): (r: string)
    ensures |r| == 0 || (!IsSpace(r[0]) && !IsSpace(r[|r| - 1]))
    ensures LeadingSpace(s) + |r| <= |s|
    ensures r == s[LeadingSpace(s)..LeadingSpace(s) + |r|]
    ensures forall i :: LeadingSpace(s) + |r| <= i < |s| ==> IsSpace(s[i])
  {
    var lo := LeadingSpace(s);
    var t := s[lo..];
    var r := t[..|t| - TrailingSpace(t)];
    assert r == s[lo..lo + |r|];
    r
  }

  /** The topic normalisation `topic.lower().strip()`: the input's
      characters after its leading whitespace, lower-cased, up to where
      only whitespace is left. */
  function Normalize(s: string): (r: string)
    ensures |r| <= |s|
    ensures forall i :: 0 <= i < |r| ==> !IsUpper(r[i])
    ensures |r| == 0 || (!IsSpace(r[0]) && !IsSpace(r[|r| - 1]))
    ensures LeadingSpace(s) + |r| <= |s|
    ensures forall i :: 0 <= i < |r| ==> r[i] == LowerChar(s[LeadingSpace(s) + i])
    ensures forall j :: LeadingSpace(s) + |r| <= j < |s| ==> IsSpace(s[j])
  {
    LowerThenStrip(s);
    Strip(Lower(s))
  }

  /** Lower-casing keeps whitespace where it is. */
  lemma {:induction false} LowerKeepsLeadingSpace(s: string)
    ensures LeadingSpace(Lower(s)) == LeadingSpace(s)
    decreases |s|
  {
    if |s| > 0 {
      assert Lower(s)[1..] == Lower(s[1..]);
      LowerKeepsLeadingSpace(s[1..]);
    }
  }

  /** Stripping the lower-cased input keeps the input's characters from its
      first non-whitespace one, lower-cased. */
  lemma LowerThenStrip(s: string)
    ensures var r := Strip(Lower(s));
      && LeadingSpace(s) + |r| <= |s|
      && (forall i :: 0 <= i < |r| ==> r[i] == LowerChar(s[LeadingSpace(s) + i]))
      && (forall j :: LeadingSpace(s) + |r| <= j < |s| ==> IsSpace(s[j]))
  {
    LowerKeepsLeadingSpace(s);
    StripKeeps(Lower(s), s);
  }

  /** The strip of `l`, a character-wise image of `s`, in terms of `s`. */
  lemma StripKeeps(l: string, s: string)
    requires |l| == |s| && LeadingSpace(l) == LeadingSpace(s)
    requires forall i :: 0 <= i < |s| ==> l[i] == LowerChar(s[i])
    ensures var r := Strip(l);
      && LeadingSpace(s) + |r| <= |s|
      && (forall i :: 0 <= i < |r| ==> r[i] == LowerChar(s[LeadingSpace(s) + i]))
      && (forall j :: LeadingSpace(s) + |r| <= j < |s| ==> IsSpace(s[j]))
  {
    var r := Strip(l);
    var lo := LeadingSpace(l);
    SliceOfLowered(l, s, lo, r);
    forall j | lo + |r| <= j < |s| ensures IsSpace(s[j]) {
      assert IsSpace(l[j]);
      assert l[j] == LowerChar(s[j]);
    }
  }

  /** A slice of a character-wise image of `s` is the image of `s`'s slice. */
  lemma SliceOfLowered(l: string, s: string, lo: nat, r: string)
    requires |l| == |s| && lo + |r| <= |l|
    requires forall i :: 0 <= i < |s| ==> l[i] == LowerChar(s[i])
    requires r == l[lo..lo + |r|]
    ensures forall i :: 0 <= i < |r| ==> r[i] == LowerChar(s[lo + i])
  {
    forall i | 0 <= i < |r| ensures r[i] == LowerChar(s[lo + i]) {
      assert r[i] == l[lo + i];
    }
  }

  /** A string that neither starts nor ends with whitespace is its own strip. */
  lemma StripKeepsTrimmed(s: string)
    requires |s| == 0 || (!IsSpace(s[0]) && !IsSpace(s[|s| - 1]))
    ensures Strip(s) == s
  {
    assert LeadingSpace(s) == 0;
    assert TrailingSpace(s) == 0;
  }

  lemma LowerKeepsLowered(s: string)
    requires forall i :: 0 <= i < |s| ==> !IsUpper(s[i])
    ensures Lower(s) == s
  {
  }

  /** Normalising a normalised topic changes nothing: every stored topic is a
      fixed point, so equal searches group under one key. */
  lemma NormalizeIdempotent(s: string)
    ensures Normalize(Normalize(s)) == Normalize(s)
  {
    var n := Normalize(s);
    LowerKeepsLowered(n);
    StripKeepsTrimmed(n);
  }

  /** Topics differing only in ASCII case and surrounding whitespace
      normalise alike. */
  lemma NormalizeExample()
    ensures Normalize(" Mars\t") == "mars"
  {
    var l := Lower(" Mars\t");
    assert l == " mars\t";
    assert LeadingSpace(l) == 1;
    var t := l[1..];
    assert t == "mars\t";
    assert TrailingSpace(t) == 1;
    assert t[..|t| - 1] == "mars";
  }
}
