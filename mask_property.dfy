/** `MaskProperty`: a property name with the options to mask it by. */
module MaskProperties {
  import opened Wrappers
  import opened Options

  /** `name` is None (null) until it is set; every record gets its own
      options record, initialised to the defaults. */
  datatype MaskProperty = MaskProperty(name: Option<string> := None, options: MaskOptions := MaskOptions())

  /** `MaskProperty.WithDefaults(name)`: the given name and default options. */
  function WithDefaults(propertyName: Option<string>): (p: MaskProperty)
    ensures p.name == propertyName
    ensures p.options.showFirst == NotSet && p.options.showLast == NotSet && p.options.preserveLength
  {
    MaskProperty(name := propertyName)
  }

  /** A record made without an initialiser has no name yet. */
  lemma NameUnsetInitially()
    ensures MaskProperty().name == None
    ensures MaskProperty().options == MaskOptions()
  {
  }
}
