/** Hand-coded recognisers for the three fixed-shape regular expressions of
    the library, over ASCII characters:

      IBAN          [a-zA-Z]{2}[0-9]{2}[a-zA-Z0-9]{4}[0-9]{7}([a-zA-Z0-9]?){0,16}
      card, full    \d{4}(?<sep>[ -]?)\d{4}\k<sep>*\d{4}\k<sep>*\d{4}
      card, partial (?<leading4>\d{4}(?<sep>[ -]?))(?<toMask>\d{4}\k<sep>*\d{2})(?<trailing6>\d{2}\k<sep>*\d{4})

    `IbanAt`, `CardFullAt` and `CardPartialAt` are what the backtracking
    engine finds when it tries a match at one position; the matchers hand
    them to the scanning of IsMatch and Replace. */
module Patterns {
  import opened Wrappers
  import opened Scanning

  datatype CharClass = Digit | Letter | Alnum

  predicate InClass(c: char, k: CharClass)
  {
    match k
    case Digit => '0' <= c <= '9'
    case Letter => 'a' <= c <= 'z' || 'A' <= c <= 'Z'
    case Alnum => '0' <= c <= '9' || 'a' <= c <= 'z' || 'A' <= c <= 'Z'
  }

  predicate IsSeparator(c: char)
  {
    c == ' ' || c == '-'
  }

  predicate Run(s: string, i: nat, n: nat, k: CharClass)
  {
    i + n <= |s| && forall j :: i <= j < i + n ==> InClass(s[j], k)
  }

  /** Greedy `\k<sep>*`: the end of the run of separator copies from `i`.
      Because a separator is never a digit, the engine cannot do better by
      giving copies back, so the greedy run is the only one that can lead to
      a match. */
  function SkipRepeats(s: string, i: nat, sep: Option<char>): (j: nat)
    requires i <= |s|
    decreases |s| - i
    ensures i <= j <= |s|
    ensures sep.None? ==> j == i
    ensures sep.Some? ==> forall k :: i <= k < j ==> s[k] == sep.value
    ensures sep.Some? ==> j == |s| || s[j] != sep.value
  {
    if sep.Some? && i < |s| && s[i] == sep.value then SkipRepeats(s, i + 1, sep) else i
  }

  /** Greedy `([a-zA-Z0-9]?){0,limit}`: how many alphanumerics it takes. */
  function AlnumRun(s: string, i: nat, limit: nat): (n: nat)
    requires i <= |s|
    decreases limit
    ensures n <= limit && i + n <= |s|
    ensures forall k :: i <= k < i + n ==> InClass(s[k], Alnum)
    ensures n == limit || i + n == |s| || !InClass(s[i + n], Alnum)
  {
    if limit == 0 || i == |s| || !InClass(s[i], Alnum) then 0 else 1 + AlnumRun(s, i + 1, limit - 1)
  }

  /** The greedy tail takes exactly a run of `n` alphanumerics that the
      limit, the end of the text or a non-alphanumeric stops. */
  lemma {:induction false} AlnumRunExact(s: string, i: nat, limit: nat, n: nat)
    requires n <= limit && Run(s, i, n, Alnum)
    requires n == limit || i + n == |s| || !InClass(s[i + n], Alnum)
    ensures AlnumRun(s, i, limit) == n
    decreases n
  {
    if n > 0 {
      assert InClass(s[i], Alnum);
      AlnumRunExact(s, i + 1, limit - 1, n - 1);
    }
  }

  /** A match attempt of the IBAN pattern at `i`. */
  function IbanAt(s: string, i: nat): (r: Option<Hit>)
    requires i <= |s|
    ensures r.Some? ==> i < r.value.end <= |s| && r.value.keepLead + r.value.keepTrail <= r.value.end - i
  {
    if Run(s, i, 2, Letter) && Run(s, i + 2, 2, Digit) && Run(s, i + 4, 4, Alnum) && Run(s, i + 8, 7, Digit)
    then Some(Hit(i + 15 + AlnumRun(s, i + 15, 16), 0, 0))
    else None
  }

  /** `\d{4}\k<sep>*\d{4}\k<sep>*\d{4}` from `j`: the end of the match. */
  function CardFullRest(s: string, j: nat, sep: Option<char>): (r: Option<nat>)
    ensures r.Some? ==> j < r.value <= |s|
  {
    if !Run(s, j, 4, Digit) then None
    else
      var k := SkipRepeats(s, j + 4, sep);
      if !Run(s, k, 4, Digit) then None
      else
        var k2 := SkipRepeats(s, k + 4, sep);
        if !Run(s, k2, 4, Digit) then None else Some(k2 + 4)
  }

  /** `(?<sep>[ -]?)` is greedy: a separator is taken when present, and the
      engine falls back to an empty separator only if the rest then fails. */
  function CardFullAt(s: string, i: nat): (r: Option<Hit>)
    ensures r.Some? ==> i < r.value.end <= |s| && r.value.keepLead + r.value.keepTrail <= r.value.end - i
  {
    if !Run(s, i, 4, Digit) then None
    else
      var withSep :=
        if i + 4 < |s| && IsSeparator(s[i + 4]) then CardFullRest(s, i + 5, Some(s[i + 4])) else None;
      var rest := if withSep.Some? then withSep else CardFullRest(s, i + 4, None);
      if rest.Some? then Some(Hit(rest.value, 0, 0)) else None
  }

  /** `(?<toMask>\d{4}\k<sep>*\d{2})(?<trailing6>\d{2}\k<sep>*\d{4})` from
      `lead`, the end of the leading4 group of a match that started at `i`. */
  function CardPartialRest(s: string, i: nat, lead: nat, sep: Option<char>): (r: Option<Hit>)
    requires i <= lead
    ensures r.Some? ==> lead < r.value.end <= |s| && r.value.keepLead == lead - i
    ensures r.Some? ==> r.value.keepLead + r.value.keepTrail <= r.value.end - i
  {
    if !Run(s, lead, 4, Digit) then None
    else
      var k := SkipRepeats(s, lead + 4, sep);
      if !Run(s, k, 2, Digit) || !Run(s, k + 2, 2, Digit) then None
      else
        var k2 := SkipRepeats(s, k + 4, sep);
        if !Run(s, k2, 4, Digit) then None
        else Some(Hit(k2 + 4, lead - i, k2 + 4 - (k + 2)))
  }

  function CardPartialAt(s: string, i: nat): (r: Option<Hit>)
    ensures r.Some? ==> i < r.value.end <= |s| && r.value.keepLead + r.value.keepTrail <= r.value.end - i
  {
    if !Run(s, i, 4, Digit) then None
    else
      var withSep :=
        if i + 4 < |s| && IsSeparator(s[i + 4]) then CardPartialRest(s, i, i + 5, Some(s[i + 4])) else None;
      if withSep.Some? then withSep else CardPartialRest(s, i, i + 4, None)
  }

  /** The three patterns as matchers for the scanning of IsMatch and
      Replace. */
  function IbanMatcher(): (m: Matcher)
    ensures Sane(m)
  {
    (s: string, i: nat) => if i <= |s| then IbanAt(s, i) else None
  }

  function CardFullMatcher(): (m: Matcher)
    ensures Sane(m)
  {
    (s: string, i: nat) => if i <= |s| then CardFullAt(s, i) else None
  }

  function CardPartialMatcher(): (m: Matcher)
    ensures Sane(m)
  {
    (s: string, i: nat) => if i <= |s| then CardPartialAt(s, i) else None
  }
}
