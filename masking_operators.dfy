/** `IMaskingOperator` as every caller uses it: `Mask(input, mask)` gives a
    MaskingResult. An operator is the function it computes. The chain is the
    loop of the masking sink: operators run in list order, each on the text
    the previous one left. */
module MaskingOperators {
  import opened MaskingResults

  datatype MaskingOperator = MaskingOperator(mask: (string, string) -> MaskingResult)

  /** Whenever the operator reports a match it also supplies a result. */
  ghost predicate Reports(op: MaskingOperator)
  {
    forall s, m :: Usable(op.mask(s, m))
  }

  ghost predicate AllReport(ops: seq<MaskingOperator>)
  {
    forall i :: 0 <= i < |ops| ==> Reports(ops[i])
  }

  /** One iteration of the chain: adopt the operator's result only if it
      matched. */
  function Step(op: MaskingOperator, input: string, mask: string): string
    requires Reports(op)
  {
    Effective(op.mask(input, mask), input)
  }

  /** The operators of `ops` applied in order, each to the previous output. */
  function Chain(ops: seq<MaskingOperator>, input: string, mask: string): string
    requires AllReport(ops)
    decreases |ops|
  {
    if ops == [] then input
    else Chain(ops[1..], Step(ops[0], input, mask), mask)
  }

  /** Running two lists one after the other is running their concatenation. */
  lemma {:induction false} ChainAppend(a: seq<MaskingOperator>, b: seq<MaskingOperator>, input: string, mask: string)
    requires AllReport(a) && AllReport(b)
    ensures AllReport(a + b)
    ensures Chain(a + b, input, mask) == Chain(b, Chain(a, input, mask), mask)
    decreases |a|
  {
    assert AllReport(a + b) by {
      forall i | 0 <= i < |a + b| ensures Reports((a + b)[i]) {
        if i < |a| { assert (a + b)[i] == a[i]; } else { assert (a + b)[i] == b[i - |a|]; }
      }
    }
    if a != [] {
      assert (a + b)[1..] == a[1..] + b;
      assert (a + b)[0] == a[0];
      ChainAppend(a[1..], b, Step(a[0], input, mask), mask);
    } else {
      assert a + b == b;
    }
  }

  /** The last operator sees what all earlier ones produced. */
  lemma ChainSnoc(ops: seq<MaskingOperator>, op: MaskingOperator, input: string, mask: string)
    requires AllReport(ops) && Reports(op)
    ensures AllReport(ops + [op])
    ensures Chain(ops + [op], input, mask) == Step(op, Chain(ops, input, mask), mask)
  {
    ChainAppend(ops, [op], input, mask);
  }

  /** When no operator reports a match on the input, the input comes back
      unchanged. */
  lemma {:induction false} ChainUnmatched(ops: seq<MaskingOperator>, input: string, mask: string)
    requires AllReport(ops)
    requires forall i :: 0 <= i < |ops| ==> !ops[i].mask(input, mask).matched
    ensures Chain(ops, input, mask) == input
    decreases |ops|
  {
    if ops != [] {
      assert !ops[0].mask(input, mask).matched;
      forall i | 0 <= i < |ops[1..]| ensures !ops[1..][i].mask(input, mask).matched {
        assert ops[1..][i] == ops[i + 1];
      }
      ChainUnmatched(ops[1..], input, mask);
    }
  }
}
