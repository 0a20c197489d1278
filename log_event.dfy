/** The parts of a Serilog log event that masking reads and writes: the
    message-template text and the properties by name. A property value is
    a scalar or one of the composite shapes, which masking never enters. */
module LogEvents {
  import opened Wrappers

  datatype ScalarContent = StringContent(text: string) | NullContent | OtherContent(rendered: string)

  datatype PropertyValue =
    | ScalarValue(content: ScalarContent)
    | SequenceValue(elements: seq<PropertyValue>)
    | StructureValue(typeTag: Option<string>, fields: seq<(string, PropertyValue)>)
    | DictionaryValue(entries: seq<(ScalarContent, PropertyValue)>)

  /** `value is ScalarValue { Value: string }`. */
  predicate IsStringScalar(v: PropertyValue)
  {
    v.ScalarValue? && v.content.StringContent?
  }

  function StringScalar(s: string): (v: PropertyValue)
    ensures IsStringScalar(v) && v.content.text == s
  {
    ScalarValue(StringContent(s))
  }

  class LogEvent {
    /** `MessageTemplate.Text`. */
    var template: string
    var properties: map<string, PropertyValue>

    constructor(template: string, properties: map<string, PropertyValue>)
      ensures this.template == template && this.properties == properties
    {
      this.template := template;
      this.properties := properties;
    }

    /** The write of the template backing field with the parse of `text`;
        parsing is not modelled, so the text is stored. */
    method SetTemplate(text: string)
      modifies this
      ensures template == text && properties == old(properties)
    {
      template := text;
    }

    /** `AddOrUpdateProperty`: the name now maps to the value, every other
        property stays. */
    method AddOrUpdateProperty(name: string, value: PropertyValue)
      modifies this
      ensures properties == old(properties)[name := value]
      ensures template == old(template)
    {
      properties := properties[name := value];
    }
  }

  /** A sink that keeps what it is sent, in order. */
  class RecordingSink {
    var emitted: seq<LogEvent>

    constructor()
      ensures emitted == []
    {
      emitted := [];
    }

    method Emit(logEvent: LogEvent)
      modifies this
      ensures emitted == old(emitted) + [logEvent]
    {
      emitted := emitted + [logEvent];
    }
  }
}
