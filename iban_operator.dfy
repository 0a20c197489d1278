/** `IbanMaskingOperator`: a regex operator over the IBAN expression
    `[a-zA-Z]{2}[0-9]{2}[a-zA-Z0-9]{4}[0-9]{7}([a-zA-Z0-9]?){0,16}`, built
    with the default replacement pattern and no preprocessing. The
    enricher's hard-wired IBAN regex is the same expression, so both use
    `IbanRegex`. */
module IbanMaskingOperator {
  import opened Wrappers
  import opened Scanning
  import opened Patterns
  import opened Regexes
  import opened MaskingResults
  import opened RegexMaskingOperators

  const IbanRegex: Regex := Regex(s => IsMatch(IbanMatcher(), s), (s, m) => Replace(IbanMatcher(), s, m))

  lemma IbanRegexLawful()
    ensures Lawful(IbanRegex)
  {
    forall s, m | !IbanRegex.isMatch(s) ensures IbanRegex.replace(s, m) == s {
      ReplaceWithoutMatch(IbanMatcher(), s, m);
    }
  }

  /** The constructor, `base(IbanReplacePattern)`. */
  function New(): (op: RegexMaskingOperator)
    ensures FromRegex(Some(IbanRegex)) == Success(op)
  {
    FromRegex(Some(IbanRegex)).value
  }

  /** Masking with the IBAN operator: Match says an IBAN occurs in the input,
      Result replaces every IBAN by the mask, and without one Result is the
      input itself. */
  lemma MaskOutcome(input: string, mask: string)
    ensures Mask(New(), input, mask).Success?
    ensures Mask(New(), input, mask).value.matched == IsMatch(IbanMatcher(), input)
    ensures Mask(New(), input, mask).value.result == Some(Replace(IbanMatcher(), input, mask))
    ensures !IsMatch(IbanMatcher(), input) ==> Mask(New(), input, mask).value.result == Some(input)
  {
    DefaultPatternMask(New(), input, mask);
    if !IsMatch(IbanMatcher(), input) {
      ReplaceWithoutMatch(IbanMatcher(), input, mask);
    }
  }

  /** Every IBAN match spans 15 to 31 characters and keeps nothing. */
  lemma MatchSpan(s: string, i: nat)
    requires i <= |s| && IbanAt(s, i).Some?
    ensures 15 <= IbanAt(s, i).value.end - i <= 31
    ensures IbanAt(s, i).value.keepLead == 0 && IbanAt(s, i).value.keepTrail == 0
  {
    assert Run(s, i + 8, 7, Digit);
  }

  /** So a text shorter than 15 characters holds no IBAN. */
  lemma ShortInputNeverMatches(s: string)
    requires |s| < 15
    ensures !IsMatch(IbanMatcher(), s)
  {
    forall j | 0 <= j <= |s| ensures IbanMatcher()(s, j).None? {
      assert !Run(s, j + 8, 7, Digit);
    }
  }

  /** A whole IBAN: the fixed 15-character head, then 0 to 16 alphanumerics. */
  predicate IbanLayout(x: string)
  {
    && 15 <= |x| <= 31
    && Run(x, 0, 2, Letter) && Run(x, 2, 2, Digit) && Run(x, 4, 4, Alnum) && Run(x, 8, 7, Digit)
    && Run(x, 15, |x| - 15, Alnum)
  }

  /** Runs inside the middle part of pre + x + post. */
  lemma RunInside(pre: string, x: string, post: string, o: nat, n: nat, k: CharClass)
    requires Run(x, o, n, k)
    ensures Run(pre + x + post, |pre| + o, n, k)
  {
    var s := pre + x + post;
    forall j | |pre| + o <= j < |pre| + o + n ensures InClass(s[j], k) {
      assert s[j] == x[j - |pre|];
    }
  }

  /** The fixed head of a whole IBAN stays a head inside pre + x + post. */
  lemma HeadInside(pre: string, x: string, post: string)
    requires IbanLayout(x)
    ensures IbanAt(pre + x + post, |pre|) == Some(Hit(|pre| + 15 + AlnumRun(pre + x + post, |pre| + 15, 16), 0, 0))
  {
    RunInside(pre, x, post, 0, 2, Letter);
    RunInside(pre, x, post, 2, 2, Digit);
    RunInside(pre, x, post, 4, 4, Alnum);
    RunInside(pre, x, post, 8, 7, Digit);
  }

  /** Its greedy tail takes exactly the rest of the IBAN when the text
      after it cannot extend it. */
  lemma TailInside(pre: string, x: string, post: string)
    requires IbanLayout(x)
    requires |x| == 31 || post == [] || !InClass(post[0], Alnum)
    ensures AlnumRun(pre + x + post, |pre| + 15, 16) == |x| - 15
  {
    var s, d := pre + x + post, |pre|;
    RunInside(pre, x, post, 15, |x| - 15, Alnum);
    if |x| < 31 && post != [] {
      assert s[d + |x|] == post[0];
    }
    AlnumRunExact(s, d + 15, 16, |x| - 15);
  }

  /** A whole IBAN is matched in full when the text after it cannot extend
      the greedy tail. */
  lemma IbanAtWhole(pre: string, x: string, post: string)
    requires IbanLayout(x)
    requires |x| == 31 || post == [] || !InClass(post[0], Alnum)
    ensures IbanAt(pre + x + post, |pre|) == Some(Hit(|pre| + |x|, 0, 0))
  {
    HeadInside(pre, x, post);
    TailInside(pre, x, post);
  }

  /** Conversely, every match is a whole IBAN that the text after it
      cannot extend: the greedy tail stops only at its limit, at the end of
      the text or before a non-alphanumeric. */
  lemma IbanAtSound(s: string, i: nat)
    requires i <= |s| && IbanAt(s, i).Some?
    ensures IbanLayout(s[i..IbanAt(s, i).value.end])
    ensures var e := IbanAt(s, i).value.end; e - i == 31 || e == |s| || !InClass(s[e], Alnum)
  {
    var e := IbanAt(s, i).value.end;
    var x := s[i..e];
    var n := AlnumRun(s, i + 15, 16);
    assert e == i + 15 + n;
    forall j | 0 <= j < |x| ensures x[j] == s[i + j] {}
    assert Run(x, 0, 2, Letter) && Run(x, 2, 2, Digit) && Run(x, 4, 4, Alnum) && Run(x, 8, 7, Digit);
    assert Run(x, 15, |x| - 15, Alnum);
  }

  /** No IBAN starts at a character that is not a letter. */
  lemma NoIbanAtNonLetter(s: string, j: nat)
    requires j < |s| && !InClass(s[j], Letter)
    ensures IbanMatcher()(s, j) == None
  {
    assert !Run(s, j, 2, Letter);
  }

  /** Nor at the very end of a text. */
  lemma NoIbanAtEnd(s: string)
    ensures IbanMatcher()(s, |s|) == None
  {
    assert !Run(s, |s|, 2, Letter);
  }

  /** No IBAN starts in a text without letters, wherever it stands. */
  lemma NoIbanInLetterless(s: string, from: nat, to: nat)
    requires from <= to <= |s|
    requires forall j :: from <= j < to ==> !InClass(s[j], Letter)
    ensures forall j :: from <= j < to ==> IbanMatcher()(s, j).None?
  {
    forall j | from <= j < to ensures IbanMatcher()(s, j).None? {
      NoIbanAtNonLetter(s, j);
    }
  }

  /** The letterless parts keep their characters inside pre + x + post. */
  lemma LetterlessParts(pre: string, x: string, post: string)
    requires forall j :: 0 <= j < |pre| ==> !InClass(pre[j], Letter)
    requires forall j :: 0 <= j < |post| ==> !InClass(post[j], Letter)
    ensures forall j :: 0 <= j < |pre| ==> !InClass((pre + x + post)[j], Letter)
    ensures forall j :: |pre| + |x| <= j < |pre + x + post| ==> !InClass((pre + x + post)[j], Letter)
  {
    var s := pre + x + post;
    forall j | 0 <= j < |pre| ensures s[j] == pre[j] {}
    forall j | |pre| + |x| <= j < |s| ensures s[j] == post[j - |pre| - |x|] {}
  }

  /** The pattern is unanchored: an IBAN between texts without letters is
      replaced by the mask and the text around it is kept. */
  lemma MasksIbanInText(pre: string, x: string, post: string, mask: string)
    requires IbanLayout(x)
    requires forall j :: 0 <= j < |pre| ==> !InClass(pre[j], Letter)
    requires forall j :: 0 <= j < |post| ==> !InClass(post[j], Letter)
    requires |x| == 31 || post == [] || !InClass(post[0], Alnum)
    ensures Replace(IbanMatcher(), pre + x + post, mask) == pre + mask + post
  {
    var m, s, d, e := IbanMatcher(), pre + x + post, |pre|, |pre| + |x|;
    LetterlessParts(pre, x, post);
    NoIbanInLetterless(s, 0, d);
    NoIbanInLetterless(s, e, |s|);
    NoIbanAtEnd(s);
    IbanAtWhole(pre, x, post);
    ReplaceSingle(m, s, d, mask);
    SubstitutionKeepingNothing(s, d, e, mask);
    assert s[..d] == pre && s[e..] == post;
  }

  /** The library's IBAN example on its own is replaced by the mask. */
  lemma DutchIbanReplaced()
    ensures IbanMatcher()("NL02ABNA0123456789", 0).Some?
    ensures IbanRegex.replace("NL02ABNA0123456789", "***MASKED***") == "***MASKED***"
  {
    var x, mask := "NL02ABNA0123456789", "***MASKED***";
    assert IbanLayout(x);
    MasksIbanInText([], x, [], mask);
    IbanAtWhole([], x, []);
    assert [] + x + [] == x && [] + mask + [] == mask;
  }

  /** The masking operator turns it into exactly the mask and reports the
      match. */
  lemma DutchIbanMasked()
    ensures Mask(New(), "NL02ABNA0123456789", "***MASKED***") == Success(MaskingResult(true, Some("***MASKED***")))
  {
    var x, mask := "NL02ABNA0123456789", "***MASKED***";
    DutchIbanReplaced();
    assert IsMatch(IbanMatcher(), x);
    MaskOutcome(x, mask);
  }
}
