/** `SensitiveDataEnricher`: the original enricher, with its two regexes
    wired in. When active it masks the message-template text and every
    scalar string property with "***MASKED***": first every email address,
    then every IBAN in the result. */
module Enrichers {
  import opened Wrappers
  import opened Scanning
  import opened Patterns
  import opened Regexes
  import opened MaskingResults
  import opened MaskingOperators
  import RegexMaskingOperators
  import IbanMaskingOperator
  import opened LogEvents
  import opened SensitiveAreas

  datatype MaskingMode = Globally | InArea

  const MaskValue: string := "***MASKED***"

  datatype SensitiveDataEnricher = SensitiveDataEnricher(mode: MaskingMode)

  /** `new SensitiveDataEnricher(maskingMode = Globally)`. */
  function Create(mode: MaskingMode := Globally): (e: SensitiveDataEnricher)
    ensures e.mode == mode
  {
    SensitiveDataEnricher(mode)
  }

  lemma ParameterlessIsGlobal()
    ensures Create().mode == Globally
  {
  }

  /** Masking runs when the mode is Globally or an area is current. */
  predicate Active(mode: MaskingMode, current: SensitiveArea?)
  {
    mode == Globally || current != null
  }

  /** `ReplaceSensitiveDataFromString`; `email` is the enricher's email
      regex, whose grammar is not modelled. */
  function ReplaceSensitiveDataFromString(email: Regex, input: string): string
  {
    IbanMaskingOperator.IbanRegex.replace(email.replace(input, MaskValue), MaskValue)
  }

  /** The email operator as a plain regex operator, the way the enricher
      uses its email regex. */
  function EmailStep(email: Regex): (op: RegexMaskingOperators.RegexMaskingOperator)
    ensures op.replacementPattern == "{0}"
  {
    RegexMaskingOperators.FromRegex(Some(email)).value
  }

  /** The hard-wired masking is the operator chain [email, IBAN] run with
      the fixed mask, provided the email regex leaves unmatched text alone. */
  lemma ReplaceIsChain(email: Regex, input: string)
    requires Lawful(email)
    ensures ValidFormat("{0}")
    ensures AllReport([RegexMaskingOperators.AsOperator(EmailStep(email)), RegexMaskingOperators.AsOperator(IbanMaskingOperator.New())])
    ensures ReplaceSensitiveDataFromString(email, input) ==
      Chain([RegexMaskingOperators.AsOperator(EmailStep(email)), RegexMaskingOperators.AsOperator(IbanMaskingOperator.New())], input, MaskValue)
  {
    FormatDefault(MaskValue);
    IbanMaskingOperator.IbanRegexLawful();
    var e, i := RegexMaskingOperators.AsOperator(EmailStep(email)), RegexMaskingOperators.AsOperator(IbanMaskingOperator.New());
    RegexMaskingOperators.StepOutcome(EmailStep(email), input, MaskValue);
    var mid := email.replace(input, MaskValue);
    assert Step(e, input, MaskValue) == mid;
    RegexMaskingOperators.StepOutcome(IbanMaskingOperator.New(), mid, MaskValue);
    assert Step(i, mid, MaskValue) == IbanMaskingOperator.IbanRegex.replace(mid, MaskValue);
    assert [e, i][1..] == [i] && [i][1..] == [];
    assert AllReport([e, i]) && AllReport([i]);
    assert Chain([i], mid, MaskValue) == Step(i, mid, MaskValue);
    assert Chain([e, i], input, MaskValue) == Chain([i], mid, MaskValue);
  }

  /** A string scalar is rewritten by the masking, any other value kept. */
  function Enriched(email: Regex, v: PropertyValue): (w: PropertyValue)
    ensures IsStringScalar(v) ==> w == StringScalar(ReplaceSensitiveDataFromString(email, v.content.text))
    ensures !IsStringScalar(v) ==> w == v
  {
    if IsStringScalar(v) then StringScalar(ReplaceSensitiveDataFromString(email, v.content.text)) else v
  }

  /** `Enrich(logEvent, propertyFactory)`: when active, the template text is
      masked and each string scalar property is rewritten under its own
      name; otherwise nothing changes. */
  method Enrich(enricher: SensitiveDataEnricher, email: Regex, logEvent: LogEvent, cell: AreaCell)
    modifies logEvent
    ensures Active(enricher.mode, cell.instance) ==>
      && logEvent.template == ReplaceSensitiveDataFromString(email, old(logEvent.template))
      && logEvent.properties == map k | k in old(logEvent.properties) :: Enriched(email, old(logEvent.properties)[k])
    ensures !Active(enricher.mode, cell.instance) ==>
      logEvent.template == old(logEvent.template) && logEvent.properties == old(logEvent.properties)
  {
    if enricher.mode == Globally || cell.instance != null {
      logEvent.SetTemplate(ReplaceSensitiveDataFromString(email, logEvent.template));
      ghost var before := logEvent.properties;
      var pending := logEvent.properties.Keys;
      while pending != {}
        invariant pending <= before.Keys
        invariant logEvent.template == ReplaceSensitiveDataFromString(email, old(logEvent.template))
        invariant logEvent.properties.Keys == before.Keys
        invariant forall k :: k in pending ==> logEvent.properties[k] == before[k]
        invariant forall k :: k in before && k !in pending ==> logEvent.properties[k] == Enriched(email, before[k])
        decreases |pending|
      {
        var k :| k in pending;
        var v := logEvent.properties[k];
        if v.ScalarValue? && v.content.StringContent? {
          logEvent.AddOrUpdateProperty(k, ScalarValue(StringContent(ReplaceSensitiveDataFromString(email, v.content.text))));
        }
        pending := pending - {k};
      }
    }
  }

  /** The address "test@email.com" is masked, given that the email regex
      replaces that whole text by the mask: the IBAN pass finds nothing in
      the twelve-character mask. */
  lemma EmailMessageMasked(email: Regex)
    requires email.replace("test@email.com", MaskValue) == MaskValue
    ensures ReplaceSensitiveDataFromString(email, "test@email.com") == MaskValue
  {
    IbanMaskingOperator.ShortInputNeverMatches(MaskValue);
    ReplaceWithoutMatch(IbanMatcher(), MaskValue, MaskValue);
  }

  /** The IBAN "NL02ABNA0123456789" is masked: it holds no '@', so an email
      grammar that needs one leaves it for the IBAN pass. */
  lemma IbanMessageMasked(email: Regex)
    requires Lawful(email) && NeedsAt(email)
    ensures ReplaceSensitiveDataFromString(email, "NL02ABNA0123456789") == MaskValue
  {
    var x := "NL02ABNA0123456789";
    assert '@' !in x;
    assert email.replace(x, MaskValue) == x;
    IbanMaskingOperator.DutchIbanReplaced();
  }
}
