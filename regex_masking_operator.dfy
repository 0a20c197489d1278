/** `RegexMaskingOperator`: a regex, a replacement pattern and a
    preprocessing function, all fixed at construction. */
module RegexMaskingOperators {
  import opened Wrappers
  import opened Regexes
  import opened MaskingResults
  import opened MaskingOperators

  datatype RegexMaskingOperator = RegexMaskingOperator(
    regex: Regex,
    replacementPattern: string,
    onBeforeMask: string -> string)

  function Identity(s: string): string { s }

  /** The four-argument constructor: each null argument raises
      ArgumentNullException naming it, checked in declaration order. */
  function Create(regex: Option<Regex>, replacementPattern: Option<string>, onBeforeMask: Option<string -> string>)
    : (r: Result<RegexMaskingOperator>)
    ensures regex.None? ==> r == Failure(ArgumentNull("regex"))
    ensures regex.Some? && replacementPattern.None? ==> r == Failure(ArgumentNull("replacementPattern"))
    ensures regex.Some? && replacementPattern.Some? && onBeforeMask.None? ==> r == Failure(ArgumentNull("onBeforeMask"))
    ensures r.Success? <==> regex.Some? && replacementPattern.Some? && onBeforeMask.Some?
    ensures r.Success? ==> r.value.regex == regex.value && r.value.replacementPattern == replacementPattern.value
    ensures r.Success? ==> forall s :: r.value.onBeforeMask(s) == onBeforeMask.value(s)
  {
    if regex.None? then Failure(ArgumentNull("regex"))
    else if replacementPattern.None? then Failure(ArgumentNull("replacementPattern"))
    else if onBeforeMask.None? then Failure(ArgumentNull("onBeforeMask"))
    else Success(RegexMaskingOperator(regex.value, replacementPattern.value, onBeforeMask.value))
  }

  /** `RegexMaskingOperator(regex)`. */
  function FromRegex(regex: Option<Regex>): Result<RegexMaskingOperator>
  {
    Create(regex, Some("{0}"), Some(Identity))
  }

  /** `RegexMaskingOperator(regex, onBeforeMask)`. */
  function FromRegexWithPreprocessing(regex: Option<Regex>, onBeforeMask: Option<string -> string>): Result<RegexMaskingOperator>
  {
    Create(regex, Some("{0}"), onBeforeMask)
  }

  /** `RegexMaskingOperator(regex, replacementPattern)`. */
  function FromRegexWithPattern(regex: Option<Regex>, replacementPattern: Option<string>): Result<RegexMaskingOperator>
  {
    Create(regex, replacementPattern, Some(Identity))
  }

  /** The convenience constructors fill in "{0}" and the identity where the
      caller gives no pattern or no preprocessing. */
  lemma ConvenienceDefaults(regex: Regex, pattern: string, pre: string -> string)
    ensures FromRegex(Some(regex)).Success?
    ensures FromRegex(Some(regex)).value.replacementPattern == "{0}"
    ensures forall s :: FromRegex(Some(regex)).value.onBeforeMask(s) == s
    ensures FromRegexWithPreprocessing(Some(regex), Some(pre)).Success?
    ensures FromRegexWithPreprocessing(Some(regex), Some(pre)).value.replacementPattern == "{0}"
    ensures FromRegexWithPattern(Some(regex), Some(pattern)).Success?
    ensures forall s :: FromRegexWithPattern(Some(regex), Some(pattern)).value.onBeforeMask(s) == s
    ensures FromRegex(None) == Failure(ArgumentNull("regex"))
  {
  }

  /** `Mask(input, mask)`: preprocess once, then replace and test on the
      preprocessed text. Formatting the replacement pattern happens before
      the match test and may throw. */
  function Mask(op: RegexMaskingOperator, input: string, mask: string): Result<MaskingResult>
  {
    var pre := op.onBeforeMask(input);
    match Format(op.replacementPattern, mask)
    case None => Failure(FormatError)
    case Some(replacement) =>
      Success(MaskingResult(op.regex.isMatch(pre), Some(op.regex.replace(pre, replacement))))
  }

  /** What Mask computes, for any operator whose pattern formats: Match is
      the regex test on the preprocessed input, and Result replaces the
      matches in it by the formatted mask; for an invalid pattern Mask
      throws. */
  lemma MaskOutcome(op: RegexMaskingOperator, input: string, mask: string)
    ensures ValidFormat(op.replacementPattern) ==>
      Mask(op, input, mask) == Success(MaskingResult(
        op.regex.isMatch(op.onBeforeMask(input)),
        Some(op.regex.replace(op.onBeforeMask(input), Format(op.replacementPattern, mask).value))))
    ensures !ValidFormat(op.replacementPattern) ==> Mask(op, input, mask) == Failure(FormatError)
  {
  }

  /** With the default pattern the replacement text is the mask itself. */
  lemma DefaultPatternMask(op: RegexMaskingOperator, input: string, mask: string)
    requires op.replacementPattern == "{0}"
    ensures Mask(op, input, mask) == Success(MaskingResult(
      op.regex.isMatch(op.onBeforeMask(input)),
      Some(op.regex.replace(op.onBeforeMask(input), mask))))
  {
    FormatDefault(mask);
  }

  /** Without a match, the Result is the preprocessed input with nothing
      replaced. */
  lemma UnmatchedResult(op: RegexMaskingOperator, input: string, mask: string)
    requires Lawful(op.regex) && ValidFormat(op.replacementPattern)
    requires !op.regex.isMatch(op.onBeforeMask(input))
    ensures Mask(op, input, mask) == Success(MaskingResult(false, Some(op.onBeforeMask(input))))
  {
  }

  /** The operator as the chain sees it. A pattern that does not format
      would make every call throw; the chain is modelled only for operators
      that do not. */
  function AsOperator(op: RegexMaskingOperator): (o: MaskingOperator)
    requires ValidFormat(op.replacementPattern)
    ensures Reports(o)
  {
    MaskingOperator((s, m) => match Mask(op, s, m) case Success(r) => r case Failure(_) => NoMatch)
  }

  /** In the chain, a regex operator replaces the text by the regex's
      rewrite of the preprocessed text when the regex matches it, and
      otherwise hands on the original, unpreprocessed input. */
  lemma StepOutcome(op: RegexMaskingOperator, input: string, mask: string)
    requires ValidFormat(op.replacementPattern)
    ensures Step(AsOperator(op), input, mask) ==
      if op.regex.isMatch(op.onBeforeMask(input))
      then op.regex.replace(op.onBeforeMask(input), Format(op.replacementPattern, mask).value)
      else input
  {
  }
}
