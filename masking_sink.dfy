/** `MaskingSink`: a sink that masks each event before handing it to an
    inner sink. Its property rules, in order of precedence: a name on the
    exclude list is never changed; a name on the mask list becomes the mask
    value; any other scalar string goes through the operator chain. The
    template text always goes through the chain. */
module MaskingSinks {
  import opened Wrappers
  import opened Text
  import opened MaskingResults
  import opened MaskingOperators
  import opened LogEvents
  import opened SensitiveAreas
  import opened Enrichers
  import opened EnricherOptions

  /** The new value of property `name` under the three rules. */
  function MaskedValue(exclude: seq<string>, maskNames: seq<string>, ops: seq<MaskingOperator>, maskValue: string,
                       name: string, v: PropertyValue): PropertyValue
    requires AllReport(ops)
  {
    if ListContainsIgnoreCase(exclude, name) then v
    else if ListContainsIgnoreCase(maskNames, name) then StringScalar(maskValue)
    else if IsStringScalar(v) then StringScalar(Chain(ops, v.content.text, maskValue))
    else v
  }

  /** Every property under the rules; the names stay the same. */
  function MaskedProperties(exclude: seq<string>, maskNames: seq<string>, ops: seq<MaskingOperator>, maskValue: string,
                            properties: map<string, PropertyValue>): (r: map<string, PropertyValue>)
    requires AllReport(ops)
    ensures r.Keys == properties.Keys
  {
    map k | k in properties :: MaskedValue(exclude, maskNames, ops, maskValue, k, properties[k])
  }

  /** An excluded name is never changed, even when it is also on the mask
      list. */
  lemma ExcludedNeverChanged(exclude: seq<string>, maskNames: seq<string>, ops: seq<MaskingOperator>, maskValue: string,
                             name: string, v: PropertyValue)
    requires AllReport(ops)
    requires ListContainsIgnoreCase(exclude, name)
    ensures MaskedValue(exclude, maskNames, ops, maskValue, name, v) == v
  {
  }

  /** A name on the mask list, and not excluded, becomes the mask value,
      whatever its value was and whatever shape it had. */
  lemma MaskListedBecomesMask(exclude: seq<string>, maskNames: seq<string>, ops: seq<MaskingOperator>, maskValue: string,
                              name: string, v: PropertyValue)
    requires AllReport(ops)
    requires !ListContainsIgnoreCase(exclude, name) && ListContainsIgnoreCase(maskNames, name)
    ensures MaskedValue(exclude, maskNames, ops, maskValue, name, v) == StringScalar(maskValue)
  {
  }

  /** Any other property: a scalar string goes through the chain, any other
      shape is untouched, and a string no operator matches is kept. */
  lemma OthersByTheChain(exclude: seq<string>, maskNames: seq<string>, ops: seq<MaskingOperator>, maskValue: string,
                         name: string, v: PropertyValue)
    requires AllReport(ops)
    requires !ListContainsIgnoreCase(exclude, name) && !ListContainsIgnoreCase(maskNames, name)
    ensures IsStringScalar(v) ==>
      MaskedValue(exclude, maskNames, ops, maskValue, name, v) == StringScalar(Chain(ops, v.content.text, maskValue))
    ensures !IsStringScalar(v) ==> MaskedValue(exclude, maskNames, ops, maskValue, name, v) == v
    ensures IsStringScalar(v) && (forall i :: 0 <= i < |ops| ==> !ops[i].mask(v.content.text, maskValue).matched) ==>
      MaskedValue(exclude, maskNames, ops, maskValue, name, v) == v
  {
    if IsStringScalar(v) && (forall i :: 0 <= i < |ops| ==> !ops[i].mask(v.content.text, maskValue).matched) {
      ChainUnmatched(ops, v.content.text, maskValue);
    }
  }

  class MaskingSink {
    const mode: MaskingMode
    const maskValue: string
    const maskingOperators: seq<MaskingOperator>
    const maskProperties: ListRef<string>
    const excludeProperties: ListRef<string>
    const aggregateSink: RecordingSink

    /** Every operator supplies a result when it reports a match, and the
        mask is not empty. */
    ghost predicate Valid()
    {
      AllReport(maskingOperators) && |maskValue| > 0
    }

    /** Stores the settings that `Create` has checked. */
    constructor(aggregateSink: RecordingSink, mode: MaskingMode, maskValue: string, maskingOperators: seq<MaskingOperator>,
                maskProperties: ListRef<string>, excludeProperties: ListRef<string>)
      ensures this.aggregateSink == aggregateSink && this.mode == mode && this.maskValue == maskValue
      ensures this.maskingOperators == maskingOperators
      ensures this.maskProperties == maskProperties && this.excludeProperties == excludeProperties
    {
      this.aggregateSink := aggregateSink;
      this.mode := mode;
      this.maskValue := maskValue;
      this.maskingOperators := maskingOperators;
      this.maskProperties := maskProperties;
      this.excludeProperties := excludeProperties;
    }

    /** `new MaskingSink(aggregateSink, options)`: fresh default options,
        configured by applying `configure` when there is one. A null or
        empty mask value throws; a null list of names becomes a new empty
        list; a null operator list throws when it is copied. */
    static method Create(aggregateSink: RecordingSink, configure: SensitiveDataEnricherOptions?, defaultOperators: seq<MaskingOperator>)
      returns (r: Result<MaskingSink>)
      requires AllReport(defaultOperators)
      requires configure != null && configure.maskingOperators != null ==> AllReport(configure.maskingOperators.items)
      ensures configure == null ==>
        && r.Success? && fresh(r.value) && r.value.mode == Globally && r.value.maskValue == DefaultMaskValue
        && r.value.maskingOperators == defaultOperators
        && r.value.maskProperties.items == [] && r.value.excludeProperties.items == []
      ensures configure != null && (configure.maskValue.None? || configure.maskValue.value == []) ==>
        r == Failure(EmptyMask)
      ensures configure != null && configure.maskValue.Some? && configure.maskValue.value != [] && configure.maskingOperators == null ==>
        r == Failure(ArgumentNull("source"))
      ensures configure != null && configure.maskValue.Some? && configure.maskValue.value != [] && configure.maskingOperators != null ==>
        && r.Success? && fresh(r.value) && r.value.mode == configure.mode && r.value.maskValue == configure.maskValue.value
        && r.value.maskingOperators == configure.maskingOperators.items
        && (configure.maskProperties != null ==> r.value.maskProperties == configure.maskProperties)
        && (configure.maskProperties == null ==> fresh(r.value.maskProperties) && r.value.maskProperties.items == [])
        && (configure.excludeProperties != null ==> r.value.excludeProperties == configure.excludeProperties)
        && (configure.excludeProperties == null ==> fresh(r.value.excludeProperties) && r.value.excludeProperties.items == [])
      ensures r.Success? ==> r.value.aggregateSink == aggregateSink && r.value.Valid()
    {
      var options := new SensitiveDataEnricherOptions(defaultOperators);
      if configure != null {
        configure.Apply(options);
      }
      if options.maskValue.None? || options.maskValue.value == [] {
        return Failure(EmptyMask);
      }
      var maskProperties := options.maskProperties;
      if maskProperties == null {
        maskProperties := new ListRef([]);
      }
      var excludeProperties := options.excludeProperties;
      if excludeProperties == null {
        excludeProperties := new ListRef([]);
      }
      if options.maskingOperators == null {
        return Failure(ArgumentNull("source"));
      }
      var sink := new MaskingSink(aggregateSink, options.mode, options.maskValue.value, options.maskingOperators.items,
                                  maskProperties, excludeProperties);
      return Success(sink);
    }

    /** `ReplaceSensitiveDataFromString`: the operators in list order, each
        on the text the previous one left, adopting a result only when the
        operator reports a match. */
    method ReplaceSensitiveDataFromString(input: string) returns (output: string)
      requires AllReport(maskingOperators)
      ensures output == Chain(maskingOperators, input, maskValue)
    {
      output := input;
      var i := 0;
      while i < |maskingOperators|
        invariant 0 <= i <= |maskingOperators|
        invariant AllReport(maskingOperators[i..])
        invariant Chain(maskingOperators, input, maskValue) == Chain(maskingOperators[i..], output, maskValue)
      {
        assert maskingOperators[i..][0] == maskingOperators[i] && maskingOperators[i..][1..] == maskingOperators[i + 1..];
        var maskResult := maskingOperators[i].mask(output, maskValue);
        if maskResult.matched {
          output := maskResult.result.value;
        }
        i := i + 1;
      }
    }

    /** `Mask(logEvent)`: the template text through the chain, then every
        property by the three rules. */
    method Mask(logEvent: LogEvent)
      requires Valid()
      modifies logEvent
      ensures logEvent.template == Chain(maskingOperators, old(logEvent.template), maskValue)
      ensures logEvent.properties ==
        MaskedProperties(excludeProperties.items, maskProperties.items, maskingOperators, maskValue, old(logEvent.properties))
    {
      var text := ReplaceSensitiveDataFromString(logEvent.template);
      logEvent.SetTemplate(text);
      ghost var before := logEvent.properties;
      var pending := logEvent.properties.Keys;
      while pending != {}
        invariant pending <= before.Keys
        invariant logEvent.template == text
        invariant logEvent.properties.Keys == before.Keys
        invariant forall k :: k in pending ==> logEvent.properties[k] == before[k]
        invariant forall k :: k in before && k !in pending ==>
          logEvent.properties[k] == MaskedValue(excludeProperties.items, maskProperties.items, maskingOperators, maskValue, k, before[k])
        decreases |pending|
      {
        var k :| k in pending;
        var v := logEvent.properties[k];
        pending := pending - {k};
        if ListContainsIgnoreCase(excludeProperties.items, k) {
          continue;
        }
        if ListContainsIgnoreCase(maskProperties.items, k) {
          logEvent.AddOrUpdateProperty(k, ScalarValue(StringContent(maskValue)));
        } else if v.ScalarValue? && v.content.StringContent? {
          var masked := ReplaceSensitiveDataFromString(v.content.text);
          logEvent.AddOrUpdateProperty(k, ScalarValue(StringContent(masked)));
        }
      }
    }

    /** `Emit(logEvent)`: masks the event when the mode is Globally or an
        area is current, and in either case forwards it to the inner sink
        exactly once. */
    method Emit(logEvent: LogEvent, cell: AreaCell)
      requires Valid()
      modifies logEvent, aggregateSink
      ensures aggregateSink.emitted == old(aggregateSink.emitted) + [logEvent]
      ensures Active(mode, cell.instance) ==>
        && logEvent.template == Chain(maskingOperators, old(logEvent.template), maskValue)
        && logEvent.properties ==
           MaskedProperties(excludeProperties.items, maskProperties.items, maskingOperators, maskValue, old(logEvent.properties))
      ensures !Active(mode, cell.instance) ==>
        logEvent.template == old(logEvent.template) && logEvent.properties == old(logEvent.properties)
    {
      if mode == Globally || cell.instance != null {
        Mask(logEvent);
      }
      aggregateSink.Emit(logEvent);
    }
  }
}
