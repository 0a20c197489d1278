/** `SensitiveDataEnricherOptions`: five settable settings. The three lists
    are objects, so `Apply` makes both option objects share them. */
module EnricherOptions {
  import opened Wrappers
  import opened MaskingOperators
  import opened Enrichers

  /** A `List<T>`: one mutable sequence reached by reference. */
  class ListRef<T> {
    var items: seq<T>

    constructor(items: seq<T>)
      ensures this.items == items
    {
      this.items := items;
    }

    /** `List.Add`. */
    method Add(x: T)
      modifies this
      ensures items == old(items) + [x]
    {
      items := items + [x];
    }
  }

  /** `SensitiveDataEnricher.DefaultMaskValue`. */
  const DefaultMaskValue: string := "***MASKED***"

  class SensitiveDataEnricherOptions {
    var mode: MaskingMode
    /** None stands for a null mask value. */
    var maskValue: Option<string>
    var maskingOperators: ListRef?<MaskingOperator>
    var maskProperties: ListRef?<string>
    var excludeProperties: ListRef?<string>

    /** The defaults: the first mode (Globally), the default mask, a fresh
        copy of the default operators, and two fresh empty name lists. */
    constructor(defaultOperators: seq<MaskingOperator>)
      ensures mode == Globally && maskValue == Some(DefaultMaskValue)
      ensures maskingOperators != null && fresh(maskingOperators) && maskingOperators.items == defaultOperators
      ensures maskProperties != null && fresh(maskProperties) && maskProperties.items == []
      ensures excludeProperties != null && fresh(excludeProperties) && excludeProperties.items == []
    {
      mode := Globally;
      maskValue := Some(DefaultMaskValue);
      maskingOperators := new ListRef(defaultOperators);
      maskProperties := new ListRef([]);
      excludeProperties := new ListRef([]);
    }

    /** `Apply(other)`: copies all five settings into `other`, the lists by
        reference; this object is not changed. */
    method Apply(other: SensitiveDataEnricherOptions)
      modifies other
      ensures other.mode == old(mode) && other.maskValue == old(maskValue)
      ensures other.maskingOperators == old(maskingOperators)
      ensures other.maskProperties == old(maskProperties)
      ensures other.excludeProperties == old(excludeProperties)
      ensures other != this ==> unchanged(this)
    {
      other.mode := mode;
      other.maskValue := maskValue;
      other.maskingOperators := maskingOperators;
      other.maskProperties := maskProperties;
      other.excludeProperties := excludeProperties;
    }
  }

  /** Applying twice leaves `other` as applying once did. */
  method ApplyTwice(source: SensitiveDataEnricherOptions, other: SensitiveDataEnricherOptions)
    modifies other
    ensures other.mode == old(source.mode) && other.maskValue == old(source.maskValue)
    ensures other.maskingOperators == old(source.maskingOperators)
    ensures other.maskProperties == old(source.maskProperties)
    ensures other.excludeProperties == old(source.excludeProperties)
    ensures other != source ==> unchanged(source)
  {
    source.Apply(other);
    source.Apply(other);
  }

  /** After Apply, a name added to the source's MaskProperties list shows
      in the target's list too: they are one list. */
  method SharedAfterApply(source: SensitiveDataEnricherOptions, other: SensitiveDataEnricherOptions, name: string)
    requires source.maskProperties != null
    modifies other, source.maskProperties
    ensures other.maskProperties == old(source.maskProperties)
    ensures other.maskProperties.items == old(source.maskProperties.items) + [name]
  {
    var names := source.maskProperties;
    source.Apply(other);
    names.Add(name);
  }
}
