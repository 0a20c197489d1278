/** The option records attached to masked properties. Both are plain values
    here: each field has the default the source initialises it with. */
module Options {

  /** `MaskOptions.NotSet`. */
  const NotSet: int := -1

  datatype MaskOptions = MaskOptions(
    showFirst: int := NotSet,
    showLast: int := NotSet,
    preserveLength: bool := true)

  /** `MaskOptions.Default`, the instance shared by every caller that does
      not supply options of its own. */
  const Default: MaskOptions := MaskOptions()

  /** `UriMaskOptions` extends MaskOptions; `base` holds the inherited
      settings. */
  datatype UriMaskOptions = UriMaskOptions(
    base: MaskOptions := MaskOptions(),
    showScheme: bool := true,
    showHost: bool := true,
    showPath: bool := false,
    showQueryString: bool := false)

  /** A new MaskOptions shows no characters at either end (both counts are
      NotSet, that is -1) and preserves the length; Default is such a
      record. */
  lemma MaskOptionsDefaults()
    ensures NotSet == -1
    ensures MaskOptions().showFirst == NotSet && MaskOptions().showLast == NotSet
    ensures MaskOptions().preserveLength
    ensures Default == MaskOptions()
  {
  }

  /** A new UriMaskOptions inherits those defaults, shows scheme and host,
      and hides path and query string. */
  lemma UriMaskOptionsDefaults()
    ensures UriMaskOptions().base == MaskOptions()
    ensures UriMaskOptions().showScheme && UriMaskOptions().showHost
    ensures !UriMaskOptions().showPath && !UriMaskOptions().showQueryString
  {
  }
}
