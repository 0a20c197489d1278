/** The original wildcard matcher for mask-property names, kept by the
    library's benchmarks as `MaskPropertyForTest.InvokeOriginal`: a name
    "*lit*" asks for lit inside the property name, "*lit" for a suffix and
    "lit*" for a prefix, all ignoring case. */
module Wildcards {
  import opened Wrappers
  import opened Text

  /** `InvokeOriginal(propertyName)` for the record's `Name`. A null name
      dereferences null, an empty one indexes past its end, and "*" asks
      Substring for a negative length. */
  function InvokeOriginal(name: Option<string>, propertyName: string): (r: Result<bool>)
  {
    match name
    case None => Failure(NullReference)
    case Some(n) =>
      if |n| == 0 then Failure(IndexOutOfRange)
      else if n[0] == '*' then
        if n[|n| - 1] == '*' then
          if |n| < 2 then Failure(ArgumentOutOfRange)
          else
            var index := IndexOfIgnoreCase(propertyName, n[1..|n| - 1]);
            Success(index.Some? && index.value > 0)
        else Success(EndsWithIgnoreCase(propertyName, n[1..]))
      else if n[|n| - 1] == '*' then Success(StartsWithIgnoreCase(propertyName, n[..|n| - 2]))
      else Success(false)
  }

  /** The failures: null, empty and "*" throw; every other name gives an
      answer. */
  lemma OriginalFailures(name: Option<string>, propertyName: string)
    ensures name.None? ==> InvokeOriginal(name, propertyName) == Failure(NullReference)
    ensures name == Some("") ==> InvokeOriginal(name, propertyName) == Failure(IndexOutOfRange)
    ensures name == Some("*") ==> InvokeOriginal(name, propertyName) == Failure(ArgumentOutOfRange)
    ensures name.Some? && |name.value| >= 2 ==> InvokeOriginal(name, propertyName).Success?
    ensures name.Some? && |name.value| == 1 && name.value[0] != '*' ==> InvokeOriginal(name, propertyName) == Success(false)
  {
  }

  /** "*lit": the property name ends with lit, ignoring case. */
  lemma OriginalSuffix(lit: string, propertyName: string)
    requires lit != [] && lit[|lit| - 1] != '*'
    ensures InvokeOriginal(Some("*" + lit), propertyName) == Success(EndsWithIgnoreCase(propertyName, lit))
  {
    assert ("*" + lit)[1..] == lit;
  }

  /** "*lit*": the first occurrence of lit, ignoring case, is not at the
      start. */
  lemma OriginalInfix(lit: string, propertyName: string)
    ensures InvokeOriginal(Some("*" + lit + "*"), propertyName) ==
      Success(IndexOfIgnoreCase(propertyName, lit).Some? && IndexOfIgnoreCase(propertyName, lit).value > 0)
  {
    var n := "*" + lit + "*";
    assert n[1..|n| - 1] == lit;
  }

  /** "lit*": the prefix tested is lit without its last character. */
  lemma OriginalPrefix(lit: string, propertyName: string)
    requires lit != [] && lit[0] != '*'
    ensures InvokeOriginal(Some(lit + "*"), propertyName) == Success(StartsWithIgnoreCase(propertyName, lit[..|lit| - 1]))
  {
    var n := lit + "*";
    assert n[..|n| - 2] == lit[..|lit| - 1];
  }

  /** A name without a star at either end never matches. */
  lemma OriginalNoStar(n: string, propertyName: string)
    requires n != [] && n[0] != '*' && n[|n| - 1] != '*'
    ensures InvokeOriginal(Some(n), propertyName) == Success(false)
  {
  }

  /** "**" never matches: the empty string is always found at index 0. */
  lemma DoubleStarNeverMatches(propertyName: string)
    ensures InvokeOriginal(Some("**"), propertyName) == Success(false)
  {
    OriginalInfix("", propertyName);
    assert "*" + "" + "*" == "**";
    assert Lower("") == "";
    assert OccursAt(Lower(propertyName), "", 0);
  }

  /** "Prop*" tests the prefix "Pro", so "Pro" itself matches it although
      it does not start with "Prop". */
  lemma PrefixDropsLastCharacter()
    ensures InvokeOriginal(Some("Prop*"), "Pro") == Success(true)
    ensures !StartsWithIgnoreCase("Pro", "Prop")
  {
    OriginalPrefix("Prop", "Pro");
    assert "Prop"[..3] == "Pro";
    assert "Prop" + "*" == "Prop*";
  }

  /** "PropProp" does not match "*Prop*": its first "Prop" is at index 0,
      although it holds "Prop" at index 4 as well. So the answer is wrong
      whether "*lit*" was meant as "lit occurs anywhere" or as "lit occurs
      somewhere past the start". */
  lemma InfixSkipsLeadingOccurrence()
    ensures InvokeOriginal(Some("*Prop*"), "PropProp") == Success(false)
    ensures Contains(Lower("PropProp"), Lower("Prop"))
    ensures OccursAt(Lower("PropProp"), Lower("Prop"), 4)
  {
    var p, lit := "PropProp", "Prop";
    OriginalInfix(lit, p);
    assert "*" + lit + "*" == "*Prop*";
    assert OccursAt(Lower(p), Lower(lit), 0) by {
      assert Lower(p)[..4] == Lower(lit);
    }
    assert Lower(p)[4..8] == Lower(lit);
  }

  /** The library's wildcard examples: "SomeProp" and "Prop" match "*Prop",
      "PropTest" matches "Prop*" and "SomePropTest" matches "*Prop*". */
  lemma SuffixExamples()
    ensures InvokeOriginal(Some("*Prop"), "SomeProp") == Success(true)
    ensures InvokeOriginal(Some("*Prop"), "Prop") == Success(true)
  {
    OriginalSuffix("Prop", "SomeProp");
    OriginalSuffix("Prop", "Prop");
    assert "*" + "Prop" == "*Prop";
    assert "SomeProp"[4..] == "Prop";
  }

  lemma PrefixExample()
    ensures InvokeOriginal(Some("Prop*"), "PropTest") == Success(true)
  {
    OriginalPrefix("Prop", "PropTest");
    assert "Prop" + "*" == "Prop*";
    assert "Prop"[..3] == "PropTest"[..3];
  }

  lemma InfixExample()
    ensures InvokeOriginal(Some("*Prop*"), "SomePropTest") == Success(true)
  {
    var pre, lit, post := "Some", "Prop", "Test";
    assert "*" + lit + "*" == "*Prop*" && pre + lit + post == "SomePropTest";
    assert forall i :: 0 <= i < |pre| ==> Fold(pre[i]) != Fold(lit[0]);
    InfixAfterOtherLetters(pre, lit, post);
  }

  /** A literal preceded by characters none of which can start it is found
      past index 0, so "*lit*" matches. */
  lemma InfixAfterOtherLetters(pre: string, lit: string, post: string)
    requires pre != [] && lit != []
    requires forall i :: 0 <= i < |pre| ==> Fold(pre[i]) != Fold(lit[0])
    ensures InvokeOriginal(Some("*" + lit + "*"), pre + lit + post) == Success(true)
  {
    var p := pre + lit + post;
    OriginalInfix(lit, p);
    var lp, ll := Lower(p), Lower(lit);
    assert p[|pre|..|pre| + |lit|] == lit;
    LowerSlice(p, |pre|, |pre| + |lit|);
    assert OccursAt(lp, ll, |pre|);
    forall j: nat | j < |pre| ensures !OccursAt(lp, ll, j) {
      assert p[j] == pre[j];
      assert lp[j..j + |ll|][0] == lp[j];
    }
  }

  /** "a*" tests the empty prefix, so it matches every property name. */
  lemma ShortPrefixMatchesAll(c: char, propertyName: string)
    requires c != '*'
    ensures InvokeOriginal(Some([c, '*']), propertyName) == Success(true)
  {
    assert [c, '*'][..0] == [];
    assert Lower([]) == [];
  }

  // -------------------------------------------------------------------
  // The matcher as evidently intended: "lit*" tests all of lit as the
  // prefix, and "*lit*" accepts lit anywhere, at the start too.

  function MatchesWildcard(name: Option<string>, propertyName: string): (r: Result<bool>)
  {
    match name
    case None => Failure(NullReference)
    case Some(n) =>
      if |n| == 0 then Failure(IndexOutOfRange)
      else if n[0] == '*' then
        if n[|n| - 1] == '*' then
          if |n| < 2 then Failure(ArgumentOutOfRange)
          else Success(IndexOfIgnoreCase(propertyName, n[1..|n| - 1]).Some?)
        else Success(EndsWithIgnoreCase(propertyName, n[1..]))
      else if n[|n| - 1] == '*' then Success(StartsWithIgnoreCase(propertyName, n[..|n| - 1]))
      else Success(false)
  }

  /** Corrected "lit*": the property name starts with lit, ignoring case. */
  lemma WildcardPrefix(lit: string, propertyName: string)
    requires lit != [] && lit[0] != '*'
    ensures MatchesWildcard(Some(lit + "*"), propertyName) == Success(StartsWithIgnoreCase(propertyName, lit))
  {
    var n := lit + "*";
    assert n[..|n| - 1] == lit;
  }

  /** Corrected "*lit*": lit occurs in the property name, ignoring case,
      wherever it is. */
  lemma WildcardInfix(lit: string, propertyName: string)
    ensures MatchesWildcard(Some("*" + lit + "*"), propertyName) == Success(Contains(Lower(propertyName), Lower(lit)))
  {
    var n := "*" + lit + "*";
    assert n[1..|n| - 1] == lit;
  }

  /** "*lit" was already right, and the corrected matcher keeps it. */
  lemma WildcardSuffix(lit: string, propertyName: string)
    requires lit != [] && lit[|lit| - 1] != '*'
    ensures MatchesWildcard(Some("*" + lit), propertyName) == InvokeOriginal(Some("*" + lit), propertyName)
    ensures MatchesWildcard(Some("*" + lit), propertyName) == Success(EndsWithIgnoreCase(propertyName, lit))
  {
    OriginalSuffix(lit, propertyName);
  }
}
