/** `MaskingResult`: the outcome of one masking attempt. */
module MaskingResults {
  import opened Wrappers

  /** A value type: `matched` is the source's `Match`, `result` its `Result`,
      which is null (None) unless an operator set it. */
  datatype MaskingResult = MaskingResult(matched: bool, result: Option<string>)

  /** `MaskingResult.NoMatch`: nothing matched and no result was set; it is
      also the default value of the struct. */
  const NoMatch: MaskingResult := MaskingResult(false, None)

  /** A result is usable when a reported match carries a result string. */
  predicate Usable(r: MaskingResult)
  {
    r.matched ==> r.result.Some?
  }

  /** What every caller does with a result: take `Result` when `Match` is set,
      otherwise keep the input it passed in. */
  function Effective(r: MaskingResult, input: string): (s: string)
    requires Usable(r)
    ensures r.matched ==> s == r.result.value
    ensures !r.matched ==> s == input
  {
    if r.matched then r.result.value else input
  }

  /** NoMatch never replaces the caller's input. */
  lemma NoMatchKeepsInput(input: string)
    ensures Usable(NoMatch) && Effective(NoMatch, input) == input
  {
  }
}
