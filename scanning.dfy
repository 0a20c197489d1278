/** How `Regex.IsMatch` and `Regex.Replace` scan a text, for any pattern:
    the pattern is given as a matcher, the function telling what a match
    attempt at one position finds. Replace takes the leftmost match, goes
    on from its end, and never lets two matches overlap. */
module Scanning {
  import opened Wrappers

  /** A match ends at `end`; in the replacement, the first `keepLead` and
      the last `keepTrail` matched characters are kept around the mask. */
  datatype Hit = Hit(end: nat, keepLead: nat, keepTrail: nat)

  /** What a match attempt at position i of s finds, if anything. */
  type Matcher = (string, nat) -> Option<Hit>

  /** Every match is non-empty, stays inside the text, and keeps no more
      than it matched. */
  ghost predicate Sane(m: Matcher)
  {
    forall s: string, i: nat :: i <= |s| && m(s, i).Some? ==>
      i < m(s, i).value.end <= |s| && m(s, i).value.keepLead + m(s, i).value.keepTrail <= m(s, i).value.end - i
  }

  /** The leftmost start of a match at or after `i`. */
  function FindFrom(m: Matcher, s: string, i: nat): (r: Option<nat>)
    requires i <= |s|
    decreases |s| - i
    ensures r.Some? ==> i <= r.value <= |s| && m(s, r.value).Some?
    ensures r.Some? ==> forall j :: i <= j < r.value ==> m(s, j).None?
    ensures r.None? ==> forall j :: i <= j <= |s| ==> m(s, j).None?
  {
    if m(s, i).Some? then Some(i)
    else if i == |s| then None
    else FindFrom(m, s, i + 1)
  }

  /** `Regex.IsMatch`: the pattern occurs somewhere in `s`. */
  predicate IsMatch(m: Matcher, s: string)
  {
    FindFrom(m, s, 0).Some?
  }

  lemma IsMatchSomewhere(m: Matcher, s: string)
    ensures IsMatch(m, s) <==> exists j :: 0 <= j <= |s| && m(s, j).Some?
  {
  }

  /** The text that replaces a match: the mask, between the kept groups. */
  function Substitution(s: string, start: nat, h: Hit, mask: string): string
    requires start + h.keepLead <= h.end - h.keepTrail && h.end <= |s|
  {
    s[start..start + h.keepLead] + mask + s[h.end - h.keepTrail..h.end]
  }

  /** A match that keeps nothing is replaced by the mask alone. */
  lemma SubstitutionKeepingNothing(s: string, start: nat, end: nat, mask: string)
    requires start <= end <= |s|
    ensures Substitution(s, start, Hit(end, 0, 0), mask) == mask
  {
    assert s[start..start] == [] && s[end..end] == [];
  }

  function ReplaceFrom(m: Matcher, s: string, i: nat, mask: string): string
    requires Sane(m) && i <= |s|
    decreases |s| - i
  {
    match FindFrom(m, s, i)
    case None => s[i..]
    case Some(k) =>
      var h := m(s, k).value;
      s[i..k] + Substitution(s, k, h, mask) + ReplaceFrom(m, s, h.end, mask)
  }

  /** `Regex.Replace(s, replacement)`. */
  function Replace(m: Matcher, s: string, mask: string): string
    requires Sane(m)
  {
    ReplaceFrom(m, s, 0, mask)
  }

  /** Replace changes nothing when the pattern does not occur. */
  lemma ReplaceWithoutMatch(m: Matcher, s: string, mask: string)
    requires Sane(m) && !IsMatch(m, s)
    ensures Replace(m, s, mask) == s
  {
  }

  /** When the match at the start spans the whole input, Replace yields just
      that one substitution. */
  lemma WholeMatch(m: Matcher, s: string, mask: string)
    requires Sane(m) && m(s, 0).Some? && m(s, 0).value.end == |s|
    ensures Replace(m, s, mask) == s[..m(s, 0).value.keepLead] + mask + s[|s| - m(s, 0).value.keepTrail..]
  {
    var h := m(s, 0).value;
    assert m(s, |s|).None?;
    assert FindFrom(m, s, |s|) == None;
    assert ReplaceFrom(m, s, |s|, mask) == [];
    assert FindFrom(m, s, 0) == Some(0);
    assert s[0..0] == [];
  }

  /** The search passes over positions where no match starts. */
  lemma {:induction false} FindFromSkip(m: Matcher, s: string, i: nat, j: nat)
    requires i <= j <= |s|
    requires forall x :: i <= x < j ==> m(s, x).None?
    ensures FindFrom(m, s, i) == FindFrom(m, s, j)
    decreases j - i
  {
    if i < j {
      FindFromSkip(m, s, i + 1, j);
    }
  }

  /** Text in which no match starts is copied unchanged. */
  lemma ReplaceFromSkip(m: Matcher, s: string, i: nat, j: nat, mask: string)
    requires Sane(m) && i <= j <= |s|
    requires forall x :: i <= x < j ==> m(s, x).None?
    ensures ReplaceFrom(m, s, i, mask) == s[i..j] + ReplaceFrom(m, s, j, mask)
  {
    FindFromSkip(m, s, i, j);
    match FindFrom(m, s, j)
    case None =>
      assert s[i..] == s[i..j] + s[j..];
    case Some(k) =>
      assert s[i..k] == s[i..j] + s[j..k];
  }

  /** One step of Replace: the text before the leftmost match, its
      substitution, and the rest replaced from the end of the match. */
  lemma ReplaceFromAt(m: Matcher, s: string, i: nat, k: nat, mask: string)
    requires Sane(m) && i <= |s| && FindFrom(m, s, i) == Some(k)
    ensures k < m(s, k).value.end <= |s|
    ensures ReplaceFrom(m, s, i, mask)
      == s[i..k] + Substitution(s, k, m(s, k).value, mask) + ReplaceFrom(m, s, m(s, k).value.end, mask)
  {
  }

  /** A text with exactly one match, at d: Replace substitutes it and keeps
      the text on both sides. */
  lemma ReplaceSingle(m: Matcher, s: string, d: nat, mask: string)
    requires Sane(m) && d <= |s| && m(s, d).Some?
    requires forall j :: 0 <= j < d ==> m(s, j).None?
    requires forall j :: m(s, d).value.end <= j <= |s| ==> m(s, j).None?
    ensures Replace(m, s, mask) == s[..d] + Substitution(s, d, m(s, d).value, mask) + s[m(s, d).value.end..]
  {
    var e := m(s, d).value.end;
    ReplaceFromSkip(m, s, 0, d, mask);
    assert FindFrom(m, s, d) == Some(d);
    assert FindFrom(m, s, e) == None;
    assert ReplaceFrom(m, s, e, mask) == s[e..];
  }
}
