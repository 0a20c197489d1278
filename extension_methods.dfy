/** The extension methods: entering a sensitive area, and the two ways of
    registering the enricher. */
module Extensions {
  import opened Regexes
  import opened LogEvents
  import opened SensitiveAreas
  import opened Enrichers

  /** `logger.EnterSensitiveArea()`: a new area becomes the current one and
      is returned. */
  method EnterSensitiveArea(cell: AreaCell) returns (area: SensitiveArea)
    modifies cell
    ensures fresh(area) && cell.instance == area
  {
    area := new SensitiveArea();
    cell.SetInstance(area);
  }

  /** `Enrich.WithSensitiveDataMasking()`: an enricher that always masks. */
  function WithSensitiveDataMasking(): (e: SensitiveDataEnricher)
    ensures e.mode == Globally
    ensures Active(e.mode, null)
  {
    Create()
  }

  /** `Enrich.WithSensitiveDataMaskingInArea()`: an enricher that masks only
      while an area is current. */
  function WithSensitiveDataMaskingInArea(): (e: SensitiveDataEnricher)
    ensures e.mode == InArea
    ensures !Active(e.mode, null)
  {
    Create(InArea)
  }

  /** Entering twice leaves only the second area current (`between` is
      the current area read after the second entry), and disposing the
      first then clears the marker although the second is still open. */
  method EnterTwiceDisposeFirst(cell: AreaCell) returns (first: SensitiveArea, second: SensitiveArea, between: SensitiveArea?)
    modifies cell
    ensures first != second
    ensures between == second && between != first
    ensures cell.instance == null
  {
    first := EnterSensitiveArea(cell);
    second := EnterSensitiveArea(cell);
    between := cell.instance;
    first.Dispose(cell);
  }

  /** Disposing twice leaves no area current. */
  method DisposeTwice(cell: AreaCell) returns (area: SensitiveArea)
    modifies cell
    ensures cell.instance == null
  {
    area := EnterSensitiveArea(cell);
    area.Dispose(cell);
    area.Dispose(cell);
  }

  /** The in-area scenario with an IBAN message: logged outside an area the
      text is kept; logged inside one it becomes the mask; after the area
      is disposed none is current. */
  method IbanInAreaScenario(email: Regex, cell: AreaCell) returns (outside: LogEvent, inside: LogEvent)
    requires Lawful(email) && NeedsAt(email)
    requires cell.instance == null
    modifies cell
    ensures outside.template == "NL02ABNA0123456789"
    ensures inside.template == MaskValue
    ensures cell.instance == null
  {
    var enricher := WithSensitiveDataMaskingInArea();
    outside := new LogEvent("NL02ABNA0123456789", map[]);
    Enrich(enricher, email, outside, cell);
    inside := new LogEvent("NL02ABNA0123456789", map[]);
    var area := EnterSensitiveArea(cell);
    Enrich(enricher, email, inside, cell);
    area.Dispose(cell);
    IbanMessageMasked(email);
  }

  /** The same with an email address, for an email regex that replaces
      "test@email.com" by the mask. */
  method EmailInAreaScenario(email: Regex, cell: AreaCell) returns (outside: LogEvent, inside: LogEvent)
    requires email.replace("test@email.com", MaskValue) == MaskValue
    requires cell.instance == null
    modifies cell
    ensures outside.template == "test@email.com"
    ensures inside.template == MaskValue
    ensures cell.instance == null
  {
    var enricher := WithSensitiveDataMaskingInArea();
    outside := new LogEvent("test@email.com", map[]);
    Enrich(enricher, email, outside, cell);
    inside := new LogEvent("test@email.com", map[]);
    var area := EnterSensitiveArea(cell);
    Enrich(enricher, email, inside, cell);
    area.Dispose(cell);
    EmailMessageMasked(email);
  }
}
