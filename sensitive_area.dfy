/** `SensitiveArea`: a disposable marker. The static `Instance` property is
    one cell, here an object passed to whoever reads or writes it. */
module SensitiveAreas {

  /** An area has identity and no state of its own. */
  class SensitiveArea {
    constructor()
    {
    }

    /** `Dispose`: clears the current area, whichever area that is; there
        is no stack of nested areas. */
    method Dispose(cell: AreaCell)
      modifies cell
      ensures cell.instance == null
    {
      cell.SetInstance(null);
    }
  }

  /** The storage behind `SensitiveArea.Instance`: it holds whatever was
      last stored in it, null at first. */
  class AreaCell {
    var instance: SensitiveArea?

    constructor()
      ensures instance == null
    {
      instance := null;
    }

    /** The `Instance` setter. */
    method SetInstance(area: SensitiveArea?)
      modifies this
      ensures instance == area
    {
      instance := area;
    }
  }
}
