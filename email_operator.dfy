/** `EmailAddressMaskingOperator`: a regex operator over the (unmodelled)
    email grammar, with two hooks: URL-encoded '@' is decoded before
    matching, and input without '@' is not matched at all. */
module EmailAddressMaskingOperator {
  import opened Wrappers
  import opened Text
  import opened Regexes
  import opened MaskingResults
  import opened MaskingOperators
  import RegexMaskingOperators

  /** `PreprocessInput`: every "%40" becomes "@"; the property name is not
      used. */
  function PreprocessInput(input: string, propertyName: Option<string>): string
  {
    if Contains(input, "%40") then ReplaceAll(input, "%40", "@") else input
  }

  /** `ShouldMaskInput`: the input contains "@"; the property name is not
      used. */
  predicate ShouldMaskInput(input: string, propertyName: Option<string>)
  {
    Contains(input, "@")
  }

  /** The first character of a Replace result is the replacement's or the
      input's own. */
  lemma ReplaceHead(u: string)
    requires |u| > 0
    ensures |ReplaceAll(u, "%40", "@")| > 0
    ensures ReplaceAll(u, "%40", "@")[0] == '@' || ReplaceAll(u, "%40", "@")[0] == u[0]
  {
  }

  /** After Replace no "%40" is left: the '@' put in cannot form a new one
      with its neighbours. */
  lemma {:induction false} ReplaceLeavesNoEncodedAt(s: string)
    ensures !Contains(ReplaceAll(s, "%40", "@"), "%40")
    decreases |s|
  {
    var r := ReplaceAll(s, "%40", "@");
    if |s| < 3 {
      assert r == s;
      assert forall i :: 0 <= i <= |r| ==> !OccursAt(r, "%40", i);
    } else if s[..3] == "%40" {
      var rest := ReplaceAll(s[3..], "%40", "@");
      ReplaceLeavesNoEncodedAt(s[3..]);
      assert r == "@" + rest;
      ContainsTail(r, "%40");
      assert r[1..] == rest;
      assert !OccursAt(r, "%40", 0) by { assert r[0] == '@'; }
    } else {
      var t := s[1..];
      var rest := ReplaceAll(t, "%40", "@");
      ReplaceLeavesNoEncodedAt(t);
      assert r == [s[0]] + rest;
      ContainsTail(r, "%40");
      assert r[1..] == rest;
      ReplaceHead(t);
      if s[0] == '%' && rest[0] == '4' {
        assert t[0] == '4';
        if |t| < 3 {
          assert rest == t;
        } else {
          assert t[..3] != "%40";
          assert rest == [t[0]] + ReplaceAll(t[1..], "%40", "@");
        }
        ReplaceHead(t[1..]);
        assert t[1] != '0' by { assert s[..3] != "%40"; assert s[1] == t[0] && s[2] == t[1]; }
        assert rest[1] != '0';
      }
      assert !OccursAt(r, "%40", 0);
    }
  }

  /** Preprocessing leaves no "%40" behind, changes nothing when there is
      none, and so doing it twice is doing it once. */
  lemma PreprocessDecodes(input: string, propertyName: Option<string>)
    ensures !Contains(PreprocessInput(input, propertyName), "%40")
    ensures !Contains(input, "%40") ==> PreprocessInput(input, propertyName) == input
    ensures PreprocessInput(PreprocessInput(input, propertyName), propertyName) == PreprocessInput(input, propertyName)
  {
    if Contains(input, "%40") {
      ReplaceLeavesNoEncodedAt(input);
    }
  }

  /** ShouldMaskInput is exactly "the input holds an '@' character". */
  lemma ShouldMaskInputIffAt(input: string, propertyName: Option<string>)
    ensures ShouldMaskInput(input, propertyName) <==> '@' in input
  {
    if '@' in input {
      var i :| 0 <= i < |input| && input[i] == '@';
      assert OccursAt(input, "@", i);
    }
    if ShouldMaskInput(input, propertyName) {
      var i :| 0 <= i <= |input| && OccursAt(input, "@", i);
      assert input[i] == input[i..i + 1][0];
    }
  }

  /** The operator's Mask: preprocess, stop with NoMatch when the
      pre-filter fails, otherwise replace and test on the preprocessed text
      with the mask as replacement. */
  function Mask(email: Regex, input: string, mask: string): (r: MaskingResult)
    ensures Usable(r)
  {
    var pre := PreprocessInput(input, None);
    if !ShouldMaskInput(pre, None) then NoMatch
    else MaskingResult(email.isMatch(pre), Some(email.replace(pre, mask)))
  }

  /** The same operator without the pre-filter: the regex operator
      base with PreprocessInput as its preprocessing step. */
  function Unfiltered(email: Regex): RegexMaskingOperators.RegexMaskingOperator
  {
    RegexMaskingOperators.RegexMaskingOperator(email, "{0}", s => PreprocessInput(s, None))
  }

  function AsOperator(email: Regex): (o: MaskingOperator)
    ensures Reports(o)
  {
    MaskingOperator((s, m) => Mask(email, s, m))
  }

  /** For a grammar whose matches all contain '@', the pre-filter only saves
      work: in the chain the operator acts exactly as the unfiltered one. */
  lemma PreFilterOnlySavesWork(email: Regex, input: string, mask: string)
    requires NeedsAt(email)
    ensures Step(AsOperator(email), input, mask) ==
            Step(RegexMaskingOperators.AsOperator(Unfiltered(email)), input, mask)
  {
    var pre := PreprocessInput(input, None);
    RegexMaskingOperators.DefaultPatternMask(Unfiltered(email), input, mask);
    ShouldMaskInputIffAt(pre, None);
  }

  /** Decoding `local%40domain` gives `local@domain` when neither part
      holds a '%' (as in "test%40email.com"). */
  lemma {:induction false} DecodeAddress(local: string, domain: string)
    requires '%' !in local && '%' !in domain
    ensures PreprocessInput(local + "%40" + domain, None) == local + "@" + domain
  {
    var s := local + "%40" + domain;
    assert OccursAt(s, "%40", |local|) by { assert s[|local|..|local| + 3] == "%40"; }
    assert s == local + ("%40" + domain);
    ReplaceAllSkip(local, "%40" + domain, "%40", "@");
    assert ReplaceAll("%40" + domain, "%40", "@") == "@" + ReplaceAll(domain, "%40", "@") by {
      assert ("%40" + domain)[..3] == "%40";
      assert ("%40" + domain)[3..] == domain;
    }
    ReplaceAllSkip(domain, [], "%40", "@");
    assert domain + [] == domain;
    assert ReplaceAll([], "%40", "@") == [];
  }

  /** A URL-encoded address reaches the grammar decoded, and passes the
      pre-filter: `local%40domain` is masked exactly as `local@domain`. */
  lemma UrlEncodedAddress(email: Regex, local: string, domain: string, mask: string)
    requires '%' !in local && '%' !in domain
    ensures Mask(email, local + "%40" + domain, mask) ==
            MaskingResult(email.isMatch(local + "@" + domain), Some(email.replace(local + "@" + domain, mask)))
  {
    DecodeAddress(local, domain);
    ShouldMaskInputIffAt(local + "@" + domain, None);
    assert (local + "@" + domain)[|local|] == '@';
  }
}
