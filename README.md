# Serilog.Enrichers.Sensitive — masking pipeline in Dafny

This project models the string-masking core of Serilog.Enrichers.Sensitive, a
Serilog add-on that hides e-mail addresses, IBANs, card numbers and chosen
properties in log events. It also proves properties of that model.

What is modelled:

- **Masking operators.** Each maps `(input, mask)` to a `MaskingResult`
  (`Match`, `Result`):
  - the regex operator (its constructors and its `Mask` composition);
  - the e-mail operator's two hooks (`%40` decoding, the "contains `@`" pre-filter);
  - the credit-card operator in full and partial mode;
  - the IBAN operator.
- **The patterns.** The card and IBAN patterns are hand-coded recognisers.
  They plug into one generic model of how `Regex.IsMatch` and `Regex.Replace`
  scan a text: leftmost match first, no overlapping matches, greedy quantifiers.
- **The abstract regex.** The e-mail grammar is not modelled. It stands as an
  abstract regex, a pair of functions.
- **The operator chain** of the masking sink: operators run in list order, and
  each one's result is adopted only when it reports a match.
- **The sink's three property rules**, in order of precedence:
  1. excluded names are never changed;
  2. names on the mask list become the mask value;
  3. any other string scalar goes through the chain.
- **Activation:** masking runs when the mode is `Globally` or a sensitive area is current.
- **The original enricher**, with its hard-wired e-mail-then-IBAN masking.
- **The options object and its `Apply`**, with the lists shared by reference.
- **The case-insensitive `MaskPropertyCollection`.**
- **The two mask types.**
- **The option records.**
- **The sensitive-area marker cell.**
- **The original wildcard matcher for property names**, kept in the benchmarks.

How the source's constructs are modelled:

| construct in the source | in the model |
|---|---|
| a value that may be null | `Option` |
| an exception | a `Failure` of `Result` |
| an object whose fields change | a `class` |
| the static `SensitiveArea.Instance` | an `AreaCell` object handed to whoever reads or writes it |
| a log event | a `LogEvent` object: the template text plus a map from property names to values |

Points where the behaviour of the code is easy to misread:

- **`Match` flag.** A regex operator's `Match` is `regex.IsMatch` on the
  preprocessed input (`src/Serilog.Enrichers.Sensitive/RegexMaskingOperator.cs:41`),
  whether or not the replacement changed the text.
- **IBAN pattern.** It takes exactly four alphanumerics after the check
  digits, `[a-zA-Z0-9]{4}` (`src/Serilog.Enrichers.Sensitive/IbanMaskingOperator.cs:5`).
- **Constructor checks.** The regex operator's constructors check only for
  null (`RegexMaskingOperator.cs:28-30`). A replacement pattern that
  `string.Format` rejects makes every later call of `Mask` throw
  (`RegexMaskingOperator.cs:40`).
- **Template.** It is rewritten on every active event, even when nothing
  in it was masked (`SensitiveDataEnricher.cs:33-35`).
- **Properties.** They are updated in place with `AddOrUpdateProperty`
  (`SensitiveDataEnricher.cs:43-46`).
- **Mask list.** A name on it becomes the plain mask value
  (`MaskingSink.cs:167-173`). Otherwise only string scalars are rewritten,
  and composite values are not entered (`MaskingSink.cs:174-180`).

In this version of the library, `RegexMaskingOperator` declares none of
the following (`RegexMaskingOperator.cs:8-44`):
- a `PreprocessInput` or `ShouldMaskInput` hook;
- a `(string, RegexOptions)` constructor;
- a `(string, IMaskType)` constructor.

Yet `EmailAddressMaskingOperator` overrides the two hooks and calls the
first constructor (`EmailAddressMaskingOperator.cs:10-26`), and
`IbanMaskingOperator` calls the second (`IbanMaskingOperator.cs:7`). The
model resolves this as follows:
- The hooks are standalone functions.
- The e-mail operator is composed as "preprocess, pre-filter, then the
  regex operator's replace and test".
- The IBAN operator is built with the one-argument constructor
  `RegexMaskingOperator(Regex)` (`RegexMaskingOperator.cs:14`).

## Model

| member | source | states |
|---|---|---|
| Text.Lower | src/Serilog.Enrichers.Sensitive/MaskPropertyCollection.cs:11 | lower-casing keeps the length and folds each character on its own (ASCII) |
| Text.IndexOf | test/Serilog.Enrichers.Sensitive.Tests.Benchmark/BenchmarkWildcardPropertyMatch.cs:57 | IndexOf finds an occurrence exactly when the text contains the pattern, and it is the leftmost one |
| Text.IndexFrom | test/Serilog.Enrichers.Sensitive.Tests.Benchmark/BenchmarkWildcardPropertyMatch.cs:57 | the search from a position returns the first occurrence at or after it, or none when there is no later occurrence |
| Text.ReplaceAllAbsent | src/Serilog.Enrichers.Sensitive/EmailAddressMaskingOperator.cs:18 | string.Replace leaves a text without the pattern unchanged |
| Text.ReplaceAllSkip | src/Serilog.Enrichers.Sensitive/EmailAddressMaskingOperator.cs:18 | string.Replace copies a leading part in which the pattern cannot start |
| Scanning.FindFrom | src/Serilog.Enrichers.Sensitive/CreditCardMaskingOperator.cs:32-33 | the regex scan finds the leftmost position at or after the start where a match attempt succeeds, or reports that none does |
| Scanning.ReplaceFromAt | src/Serilog.Enrichers.Sensitive/CreditCardMaskingOperator.cs:32 | one step of Replace: it copies the text before the leftmost match, substitutes the match and resumes scanning at the match's end |
| Scanning.ReplaceFromSkip | src/Serilog.Enrichers.Sensitive/CreditCardMaskingOperator.cs:32 | text in which no match starts is copied through Replace unchanged |
| Scanning.IsMatchSomewhere | src/Serilog.Enrichers.Sensitive/CreditCardMaskingOperator.cs:33 | IsMatch holds exactly when a match attempt succeeds at some position of the text |
| Scanning.ReplaceWithoutMatch | src/Serilog.Enrichers.Sensitive/CreditCardMaskingOperator.cs:32-33 | Replace returns the input unchanged when the pattern does not occur in it |
| Scanning.WholeMatch | src/Serilog.Enrichers.Sensitive/CreditCardMaskingOperator.cs:29-32 | a match spanning the whole input is replaced by the mask between its kept lead and trail |
| Scanning.ReplaceSingle | src/Serilog.Enrichers.Sensitive/IbanMaskingOperator.cs:5 | an unanchored pattern with one match: the text before and after the match is kept and only the match is substituted |
| Patterns.SkipRepeats | src/Serilog.Enrichers.Sensitive/CreditCardMaskingOperator.cs:23 | the greedy `\k<sep>*` consumes only separator copies and stops at the first non-copy |
| Patterns.AlnumRun | src/Serilog.Enrichers.Sensitive/IbanMaskingOperator.cs:5 | the greedy `([a-zA-Z0-9]?){0,16}` takes at most 16 alphanumerics and stops only at the limit, the end or a non-alphanumeric |
| Patterns.AlnumRunExact | src/Serilog.Enrichers.Sensitive/IbanMaskingOperator.cs:5 | a run of n alphanumerics that the limit, the end or a non-alphanumeric stops is exactly what the greedy tail takes |
| Patterns.IbanAt | src/Serilog.Enrichers.Sensitive/IbanMaskingOperator.cs:5 | an IBAN match is non-empty, stays inside the text and keeps nothing of itself |
| Patterns.CardFullAt | src/Serilog.Enrichers.Sensitive/CreditCardMaskingOperator.cs:22-24 | a full-mode match is non-empty and stays inside the text |
| Patterns.CardPartialAt | src/Serilog.Enrichers.Sensitive/CreditCardMaskingOperator.cs:18-20 | a partial-mode match is non-empty, stays inside the text and keeps no more than it matched |
| MaskingResults.Effective | test/Serilog.Enrichers.Sensitive.Tests.Unit/MaskingSink.cs:190-193 | a caller takes Result when Match is set and keeps its own input otherwise |
| MaskingResults.NoMatchKeepsInput | src/Serilog.Enrichers.Sensitive/MaskingResult.cs:8 | NoMatch (Match false, Result null) never replaces the caller's input |
| Regexes.Format | src/Serilog.Enrichers.Sensitive/RegexMaskingOperator.cs:40 | string.Format with the one argument succeeds exactly for the patterns ValidFormat accepts, and the answer depends on the pattern only. ValidFormat accepts literal text, "{{", "}}", and items with index 0 (leading zeros allowed), spaces after the index, an optional `,[-]width` and an optional `:format` |
| Regexes.Number | src/Serilog.Enrichers.Sensitive/RegexMaskingOperator.cs:40 | an index or width reads digits while its value is below 1000000; the value is 0 exactly when every digit read is '0' |
| Regexes.CloseBrace | src/Serilog.Enrichers.Sensitive/RegexMaskingOperator.cs:40 | a format string ends at the first '}' and holds no brace; a '{' before any '}', or no '}' at all, is an error |
| Regexes.Pad | src/Serilog.Enrichers.Sensitive/RegexMaskingOperator.cs:40 | an aligned item is the argument padded with spaces to the width: on the left for a positive alignment, on the right for a negative one; a narrower width cuts nothing |
| Regexes.FormatLiteralPrefix | src/Serilog.Enrichers.Sensitive/RegexMaskingOperator.cs:40 | literal text before the rest of a pattern is copied in front of the rest's output |
| Regexes.FormatAroundItem | src/Serilog.Enrichers.Sensitive/RegexMaskingOperator.cs:40 | pre + "{0}" + post formats to pre + mask + post for brace-free pre and post |
| Regexes.FormatAligned | src/Serilog.Enrichers.Sensitive/RegexMaskingOperator.cs:40 | "{0,d}" and "{0,-d}" give the mask padded to width d on the left or on the right |
| Regexes.FormatIgnoresFormatString | src/Serilog.Enrichers.Sensitive/RegexMaskingOperator.cs:40 | "{0:f}" gives the mask itself for any brace-free f |
| Regexes.FormatZerosAndSpaces | src/Serilog.Enrichers.Sensitive/RegexMaskingOperator.cs:40 | an index of one or more zeros followed by any spaces formats like "{0}" |
| Regexes.FormatRightAlignedExample | src/Serilog.Enrichers.Sensitive/RegexMaskingOperator.cs:40 | "{0,5}" with "ab" gives "   ab" |
| Regexes.FormatLeftAlignedExample | src/Serilog.Enrichers.Sensitive/RegexMaskingOperator.cs:40 | "{0,-5}" with "ab" gives "ab   " |
| Regexes.FormatNarrowWidthExample | src/Serilog.Enrichers.Sensitive/RegexMaskingOperator.cs:40 | "{0,1}" with "ab" gives "ab" |
| Regexes.FormatStringIgnoredExample | src/Serilog.Enrichers.Sensitive/RegexMaskingOperator.cs:40 | "{0:X}" with "ab" gives "ab" |
| Regexes.FormatZerosExample | src/Serilog.Enrichers.Sensitive/RegexMaskingOperator.cs:40 | "{00}" with "ab" gives "ab" |
| Regexes.FormatSpacesExample | src/Serilog.Enrichers.Sensitive/RegexMaskingOperator.cs:40 | "{0 }" with "ab" gives "ab" |
| Regexes.FormatRejects | src/Serilog.Enrichers.Sensitive/RegexMaskingOperator.cs:40 | "{1}", "{ 0}", "{0", "}", "{0:{}" and "{0,- 5}" throw a FormatException |
| Regexes.FormatDefault | src/Serilog.Enrichers.Sensitive/RegexMaskingOperator.cs:14 | the default pattern "{0}" formats to the mask itself |
| Regexes.FormatLiteral | src/Serilog.Enrichers.Sensitive/RegexMaskingOperator.cs:40 | a pattern without braces is used literally, whatever the mask |
| MaskingOperators.ChainAppend | test/Serilog.Enrichers.Sensitive.Tests.Unit/MaskingSink.cs:184-197 | running two operator lists one after the other is running their concatenation: each operator sees the previous output |
| MaskingOperators.ChainSnoc | test/Serilog.Enrichers.Sensitive.Tests.Unit/MaskingSink.cs:186-194 | the last operator of the list works on what all earlier operators produced |
| MaskingOperators.ChainUnmatched | test/Serilog.Enrichers.Sensitive.Tests.Unit/MaskingSink.cs:184-197 | when no operator reports a match the input comes back unchanged |
| RegexMaskingOperators.Create | src/Serilog.Enrichers.Sensitive/RegexMaskingOperator.cs:26-31 | a null regex, pattern or preprocessing function throws ArgumentNullException naming it, in that order; otherwise all three are stored |
| RegexMaskingOperators.ConvenienceDefaults | src/Serilog.Enrichers.Sensitive/RegexMaskingOperator.cs:14-24 | the shorter constructors default the pattern to "{0}" and the preprocessing to the identity |
| RegexMaskingOperators.MaskOutcome | src/Serilog.Enrichers.Sensitive/RegexMaskingOperator.cs:35-43 | Mask preprocesses once; Match is the regex test and Result the replacement, both on the preprocessed text; an invalid pattern throws |
| RegexMaskingOperators.DefaultPatternMask | src/Serilog.Enrichers.Sensitive/RegexMaskingOperator.cs:40-41 | with "{0}" every match is replaced by the mask itself |
| RegexMaskingOperators.UnmatchedResult | src/Serilog.Enrichers.Sensitive/RegexMaskingOperator.cs:40-41 | without a match Result is the preprocessed input with nothing replaced |
| RegexMaskingOperators.AsOperator | src/Serilog.Enrichers.Sensitive/RegexMaskingOperator.cs:35-43 | a regex operator always supplies a Result when it reports a match |
| RegexMaskingOperators.StepOutcome | src/Serilog.Enrichers.Sensitive/RegexMaskingOperator.cs:37-41 | in the chain a regex operator hands on the rewritten preprocessed text on a match and the untouched original input otherwise |
| EmailAddressMaskingOperator.ReplaceLeavesNoEncodedAt | src/Serilog.Enrichers.Sensitive/EmailAddressMaskingOperator.cs:18 | after replacing "%40" by "@" no "%40" is left in the text |
| EmailAddressMaskingOperator.PreprocessDecodes | src/Serilog.Enrichers.Sensitive/EmailAddressMaskingOperator.cs:14-21 | PreprocessInput leaves no "%40", is the identity on text without one, and is idempotent |
| EmailAddressMaskingOperator.ShouldMaskInputIffAt | src/Serilog.Enrichers.Sensitive/EmailAddressMaskingOperator.cs:23-26 | ShouldMaskInput holds exactly when the input contains '@', whatever the property name |
| EmailAddressMaskingOperator.Mask | src/Serilog.Enrichers.Sensitive/EmailAddressMaskingOperator.cs:14-26 | the e-mail operator's result always carries a Result when it reports a match |
| EmailAddressMaskingOperator.AsOperator | src/Serilog.Enrichers.Sensitive/EmailAddressMaskingOperator.cs:5-12 | the e-mail operator is a well-behaved member of the chain |
| EmailAddressMaskingOperator.PreFilterOnlySavesWork | src/Serilog.Enrichers.Sensitive/EmailAddressMaskingOperator.cs:23-26 | for a grammar whose matches contain '@', the pre-filter changes nothing the chain sees |
| EmailAddressMaskingOperator.DecodeAddress | src/Serilog.Enrichers.Sensitive/EmailAddressMaskingOperator.cs:16-19 | "local%40domain" is decoded to "local@domain" |
| EmailAddressMaskingOperator.UrlEncodedAddress | test/Serilog.Enrichers.Sensitive.Tests.Unit/WhenMaskingEmailAddresses.cs:48-54 | a URL-encoded address is masked exactly as the decoded one |
| CreditCardMaskingOperator.Default | src/Serilog.Enrichers.Sensitive/CreditCardMaskingOperator.cs:9-11 | the parameterless constructor selects full masking |
| CreditCardMaskingOperator.Mask | src/Serilog.Enrichers.Sensitive/CreditCardMaskingOperator.cs:26-35 | Match is exactly "the selected pattern occurs"; without an occurrence Result is the input (no checksum) |
| CreditCardMaskingOperator.AsOperator | src/Serilog.Enrichers.Sensitive/CreditCardMaskingOperator.cs:26-35 | the card operator always supplies a Result |
| CreditCardMaskingOperator.SkipRepeatsExact | src/Serilog.Enrichers.Sensitive/CreditCardMaskingOperator.cs:23 | the greedy separator run ends exactly where the copies of the separator end |
| CreditCardMaskingOperator.FullSound | src/Serilog.Enrichers.Sensitive/CreditCardMaskingOperator.cs:22-24 | every full-mode match is four groups of four digits with an optional separator reused between groups, and keeps nothing |
| CreditCardMaskingOperator.FullComplete | src/Serilog.Enrichers.Sensitive/CreditCardMaskingOperator.cs:22-24 | every such layout is matched in full at its start |
| CreditCardMaskingOperator.PartialSound | src/Serilog.Enrichers.Sensitive/CreditCardMaskingOperator.cs:18-20 | every partial-mode match is such a layout keeping the first group with its separator and the last six digits with theirs |
| CreditCardMaskingOperator.PartialComplete | src/Serilog.Enrichers.Sensitive/CreditCardMaskingOperator.cs:18-20 | every layout is matched in partial mode with that lead and trail |
| CreditCardMaskingOperator.SameSpans | src/Serilog.Enrichers.Sensitive/CreditCardMaskingOperator.cs:18-24 | both modes match at the same places with the same extent |
| CreditCardMaskingOperator.FullMasksGroupedNumber | src/Serilog.Enrichers.Sensitive/CreditCardMaskingOperator.cs:22-32 | any four digit groups with a space, a dash or nothing between them become exactly the mask in full mode |
| CreditCardMaskingOperator.PartialWholeHit | src/Serilog.Enrichers.Sensitive/CreditCardMaskingOperator.cs:18-20 | such a number is one partial-mode match keeping the first group plus separator and the last six digits |
| CreditCardMaskingOperator.PartialKeepsFirstFourAndLastSix | src/Serilog.Enrichers.Sensitive/CreditCardMaskingOperator.cs:18-32 | in partial mode such a number keeps its first four and last six digits with their separators around the mask |
| CreditCardMaskingOperator.FullModeRows | test/Serilog.Enrichers.Sensitive.Tests.Unit/WhenMaskingCreditCards.cs:12-14 | the three full-mode rows become "***MASKED***" |
| CreditCardMaskingOperator.PartialModeSpaces | test/Serilog.Enrichers.Sensitive.Tests.Unit/WhenMaskingCreditCards.cs:15 | "4111 1111 1111 1111" becomes "4111 ***MASKED***11 1111" in partial mode |
| CreditCardMaskingOperator.PartialModeDashes | test/Serilog.Enrichers.Sensitive.Tests.Unit/WhenMaskingCreditCards.cs:16 | "4111-1111-1111-1111" becomes "4111-***MASKED***11-1111" in partial mode |
| CreditCardMaskingOperator.PartialModeNoSeparator | test/Serilog.Enrichers.Sensitive.Tests.Unit/WhenMaskingCreditCards.cs:17 | "4111111111111111" becomes "4111***MASKED***111111" in partial mode |
| IbanMaskingOperator.IbanRegexLawful | src/Serilog.Enrichers.Sensitive/IbanMaskingOperator.cs:5 | the IBAN regex's Replace changes nothing in a text without an IBAN |
| IbanMaskingOperator.New | src/Serilog.Enrichers.Sensitive/IbanMaskingOperator.cs:7-9 | the operator is the regex operator built from the IBAN pattern with the default replacement pattern |
| IbanMaskingOperator.MaskOutcome | src/Serilog.Enrichers.Sensitive/IbanMaskingOperator.cs:3-9 | Match says an IBAN occurs, Result replaces each IBAN by the mask, and without one Result is the input |
| IbanMaskingOperator.MatchSpan | src/Serilog.Enrichers.Sensitive/IbanMaskingOperator.cs:5 | every match spans 15 to 31 characters |
| IbanMaskingOperator.ShortInputNeverMatches | src/Serilog.Enrichers.Sensitive/IbanMaskingOperator.cs:5 | a text shorter than 15 characters holds no IBAN |
| IbanMaskingOperator.IbanAtWhole | src/Serilog.Enrichers.Sensitive/IbanMaskingOperator.cs:5 | a whole IBAN (2 letters, 2 digits, 4 alphanumerics, 7 digits, up to 16 alphanumerics) is matched in full where the text after it cannot extend it |
| IbanMaskingOperator.IbanAtSound | src/Serilog.Enrichers.Sensitive/IbanMaskingOperator.cs:5 | conversely, every match is a whole IBAN, and the text after it cannot extend the greedy tail: it is 31 characters long, or ends the text, or is followed by a non-alphanumeric |
| IbanMaskingOperator.NoIbanAtNonLetter | src/Serilog.Enrichers.Sensitive/IbanMaskingOperator.cs:5 | no match starts at a character that is not a letter |
| IbanMaskingOperator.MasksIbanInText | src/Serilog.Enrichers.Sensitive/IbanMaskingOperator.cs:5 | the pattern is unanchored: an IBAN between letterless texts is replaced by the mask and the text around it is kept |
| IbanMaskingOperator.DutchIbanReplaced | test/Serilog.Enrichers.Sensitive.Tests.Unit/WhenMaskingTheMessageTemplateGlobally.cs:19-27 | "NL02ABNA0123456789" is an IBAN and is replaced by "***MASKED***" |
| IbanMaskingOperator.DutchIbanMasked | test/Serilog.Enrichers.Sensitive.Tests.Unit/WhenMaskingTheMessageTemplateGlobally.cs:19-27 | the IBAN operator reports the match and returns exactly the mask |
| Options.MaskOptionsDefaults | src/Serilog.Enrichers.Sensitive/MaskOptions.cs:5-9 | NotSet is -1; ShowFirst and ShowLast default to NotSet and PreserveLength to true; Default is such a record |
| Options.UriMaskOptionsDefaults | src/Serilog.Enrichers.Sensitive/UriMaskOptions.cs:3-8 | URI options inherit those defaults, show scheme and host, hide path and query string |
| MaskProperties.WithDefaults | src/Serilog.Enrichers.Sensitive/MaskProperty.cs:8-11 | the record has the given name and default options |
| MaskProperties.NameUnsetInitially | src/Serilog.Enrichers.Sensitive/MaskProperty.cs:5-6 | the name is null until set, and the options start as a default record |
| KeepingFirstFewCharactersMasks.CreateMask | src/Serilog.Enrichers.Sensitive/MaskTypes/KeepingFirstFewCharactersMask.cs:14-17 | the first min(length, n) characters of the source followed by "***", so length min(length, n) + 3; a null source throws |
| KeepingFirstFewCharactersMasks.KeepsShortSourceWhole | src/Serilog.Enrichers.Sensitive/MaskTypes/KeepingFirstFewCharactersMask.cs:16 | when n is at least the length the whole source is kept before "***" |
| KeepingFirstFewCharactersMasks.KeepingNoneIsStars | src/Serilog.Enrichers.Sensitive/MaskTypes/KeepingFirstFewCharactersMask.cs:16 | n = 0 gives exactly "***" |
| FixedValueMasks.CreateMask | src/Serilog.Enrichers.Sensitive/MaskTypes/FixedValueMask.cs:14-17 | the stored value, for any source including null |
| FixedValueMasks.FixedValueIgnoresSource | src/Serilog.Enrichers.Sensitive/MaskTypes/FixedValueMask.cs:10-17 | any two calls give the same string, and the default one is "***MASKED***" |
| PropertyCollections.AddAllOutcome | src/Serilog.Enrichers.Sensitive/MaskPropertyCollection.cs:24-34 | adding names succeeds exactly when none clashes, ignoring case, with a key or another name; then each lower-cased name maps to the options and old keys keep theirs |
| PropertyCollections.MaskPropertyCollection.constructor | src/Serilog.Enrichers.Sensitive/MaskPropertyCollection.cs:5-7 | a new collection has an empty list and an empty dictionary |
| PropertyCollections.MaskPropertyCollection.AddItem | src/Serilog.Enrichers.Sensitive/MaskPropertyCollection.cs:5 | the inherited List.Add appends to the list and leaves the dictionary alone |
| PropertyCollections.MaskPropertyCollection.AddWithOptions | src/Serilog.Enrichers.Sensitive/MaskPropertyCollection.cs:14-17 | maps the lower-cased name to the options; a duplicate key throws and changes nothing; the list is untouched |
| PropertyCollections.MaskPropertyCollection.Add | src/Serilog.Enrichers.Sensitive/MaskPropertyCollection.cs:9-12 | the same with MaskOptions.Default |
| PropertyCollections.MaskPropertyCollection.TryGetProperty | src/Serilog.Enrichers.Sensitive/MaskPropertyCollection.cs:19-22 | found exactly when the lower-cased name is a key, with its stored options |
| PropertyCollections.MaskPropertyCollection.From | src/Serilog.Enrichers.Sensitive/MaskPropertyCollection.cs:24-34 | adds each name in order with the default options and throws at the first case-insensitive duplicate |
| PropertyCollections.LookupIgnoresCase | src/Serilog.Enrichers.Sensitive/MaskPropertyCollection.cs:19-22 | names equal ignoring case look up the same entry |
| PropertyCollections.LookupAfterAdd | src/Serilog.Enrichers.Sensitive/MaskPropertyCollection.cs:14-22 | after adding a name every spelling of it finds the options and every other lookup is as before |
| SensitiveAreas.SensitiveArea.Dispose | src/Serilog.Enrichers.Sensitive/SensitiveArea.cs:16-19 | disposing clears the current area, whichever area it is |
| SensitiveAreas.AreaCell.constructor | src/Serilog.Enrichers.Sensitive/SensitiveArea.cs:8-14 | no area is current at first |
| SensitiveAreas.AreaCell.SetInstance | src/Serilog.Enrichers.Sensitive/SensitiveArea.cs:13 | Instance returns what was last stored |
| LogEvents.LogEvent.SetTemplate | src/Serilog.Enrichers.Sensitive/SensitiveDataEnricher.cs:35 | the template is replaced and the properties kept |
| LogEvents.LogEvent.AddOrUpdateProperty | src/Serilog.Enrichers.Sensitive/SensitiveDataEnricher.cs:43-46 | the name maps to the new value and every other property stays |
| LogEvents.RecordingSink.Emit | test/Serilog.Enrichers.Sensitive.Tests.Unit/MaskingSink.cs:72 | the inner sink receives the event once, after those already sent |
| Enrichers.Create | src/Serilog.Enrichers.Sensitive/SensitiveDataEnricher.cs:20-22 | the enricher keeps the given mode |
| Enrichers.ParameterlessIsGlobal | src/Serilog.Enrichers.Sensitive/SensitiveDataEnricher.cs:20 | the parameterless constructor selects Globally |
| Enrichers.ReplaceIsChain | src/Serilog.Enrichers.Sensitive/SensitiveDataEnricher.cs:53-60 | the hard-wired masking is the chain [e-mail, IBAN] with "***MASKED***": e-mail first, then IBAN on its result |
| Enrichers.Enriched | src/Serilog.Enrichers.Sensitive/SensitiveDataEnricher.cs:39-47 | a string scalar is rewritten by the masking and any other value is kept |
| Enrichers.Enrich | src/Serilog.Enrichers.Sensitive/SensitiveDataEnricher.cs:29-51 | when active the template is masked and each string scalar property rewritten under its own name; otherwise nothing changes |
| Enrichers.EmailMessageMasked | src/Serilog.Enrichers.Sensitive/SensitiveDataEnricher.cs:55-57 | a message the e-mail regex turns into the mask stays the mask: the IBAN pass finds nothing in it |
| Enrichers.IbanMessageMasked | test/Serilog.Enrichers.Sensitive.Tests.Unit/WhenMaskingTheMessageTemplateGlobally.cs:19-27 | "NL02ABNA0123456789" becomes "***MASKED***" |
| EnricherOptions.SensitiveDataEnricherOptions.constructor | src/Serilog.Enrichers.Sensitive/SensitiveDataEnricherOptions.cs:11-33 | defaults: Globally, "***MASKED***", a fresh copy of the default operators, two fresh empty name lists |
| EnricherOptions.SensitiveDataEnricherOptions.Apply | src/Serilog.Enrichers.Sensitive/SensitiveDataEnricherOptions.cs:39-46 | the other object gets all five settings, the lists by reference; this object is unchanged |
| EnricherOptions.ApplyTwice | src/Serilog.Enrichers.Sensitive/SensitiveDataEnricherOptions.cs:39-46 | applying twice leaves the other object as applying once does |
| EnricherOptions.SharedAfterApply | src/Serilog.Enrichers.Sensitive/SensitiveDataEnricherOptions.cs:43-45 | after Apply a name added to the source's list shows in the other's list: they are one list |
| MaskingSinks.MaskedProperties | test/Serilog.Enrichers.Sensitive.Tests.Unit/MaskingSink.cs:160-181 | masking never adds or removes a property name |
| MaskingSinks.ExcludedNeverChanged | test/Serilog.Enrichers.Sensitive.Tests.Unit/MaskingSink.cs:162-165 | an excluded name (ignoring case) is never changed, even when also on the mask list |
| MaskingSinks.MaskListedBecomesMask | test/Serilog.Enrichers.Sensitive.Tests.Unit/MaskingSink.cs:167-173 | a listed, non-excluded name becomes exactly the mask value, whatever its value or shape |
| MaskingSinks.OthersByTheChain | test/Serilog.Enrichers.Sensitive.Tests.Unit/MaskingSink.cs:174-180 | any other string scalar goes through the chain, other shapes are untouched, and a string no operator matches is kept |
| MaskingSinks.MaskingSink.constructor | test/Serilog.Enrichers.Sensitive.Tests.Unit/MaskingSink.cs:43-52 | the sink stores the checked settings |
| MaskingSinks.MaskingSink.Create | test/Serilog.Enrichers.Sensitive.Tests.Unit/MaskingSink.cs:25-53 | defaults unless configured; a null or empty mask throws; a null name list becomes a new empty list; a null operator list throws; otherwise the configured settings, lists shared |
| MaskingSinks.MaskingSink.ReplaceSensitiveDataFromString | test/Serilog.Enrichers.Sensitive.Tests.Unit/MaskingSink.cs:184-197 | the loop computes the chain of the operators in list order |
| MaskingSinks.MaskingSink.Mask | test/Serilog.Enrichers.Sensitive.Tests.Unit/MaskingSink.cs:154-182 | the template goes through the chain and every property follows the three rules |
| MaskingSinks.MaskingSink.Emit | test/Serilog.Enrichers.Sensitive.Tests.Unit/MaskingSink.cs:55-73 | masks only when Globally or an area is current, otherwise leaves the event alone, and forwards it exactly once either way |
| Extensions.EnterSensitiveArea | src/Serilog.Enrichers.Sensitive/ExtensionMethods.cs:7-14 | a new area becomes the current one and is returned |
| Extensions.WithSensitiveDataMasking | src/Serilog.Enrichers.Sensitive/ExtensionMethods.cs:16-20 | registers a Globally enricher, active with no area |
| Extensions.WithSensitiveDataMaskingInArea | src/Serilog.Enrichers.Sensitive/ExtensionMethods.cs:22-26 | registers an InArea enricher, inactive with no area |
| Extensions.EnterTwiceDisposeFirst | src/Serilog.Enrichers.Sensitive/ExtensionMethods.cs:11 | after entering twice the current area is the second one, not the first; disposing the first then clears the marker although the second is still open |
| Extensions.DisposeTwice | src/Serilog.Enrichers.Sensitive/SensitiveArea.cs:16-19 | disposing twice leaves no area current |
| Extensions.IbanInAreaScenario | test/Serilog.Enrichers.Sensitive.Tests.Unit/WhenMaskingTheMessageTemplateInArea.cs:19-53 | in-area mode: an IBAN message is kept outside an area and becomes the mask inside one |
| Extensions.EmailInAreaScenario | test/Serilog.Enrichers.Sensitive.Tests.Unit/WhenMaskingTheMessageTemplateInArea.cs:9-40 | the same for an e-mail message |
| Wildcards.OriginalFailures | test/Serilog.Enrichers.Sensitive.Tests.Benchmark/BenchmarkWildcardPropertyMatch.cs:50-73 | a null name, an empty name and "*" throw; every other name gives an answer; a one-character name without star is false |
| Wildcards.OriginalSuffix | test/Serilog.Enrichers.Sensitive.Tests.Benchmark/BenchmarkWildcardPropertyMatch.cs:59-63 | "*lit" matches exactly when the property name ends with lit, ignoring case |
| Wildcards.OriginalInfix | test/Serilog.Enrichers.Sensitive.Tests.Benchmark/BenchmarkWildcardPropertyMatch.cs:54-58 | "*lit*" matches exactly when the first case-insensitive occurrence of lit is past index 0 |
| Wildcards.OriginalPrefix | test/Serilog.Enrichers.Sensitive.Tests.Benchmark/BenchmarkWildcardPropertyMatch.cs:66-70 | "lit*" tests the prefix lit without its last character |
| Wildcards.OriginalNoStar | test/Serilog.Enrichers.Sensitive.Tests.Benchmark/BenchmarkWildcardPropertyMatch.cs:72 | a name without a star at either end never matches |
| Wildcards.DoubleStarNeverMatches | test/Serilog.Enrichers.Sensitive.Tests.Benchmark/BenchmarkWildcardPropertyMatch.cs:56-57 | "**" never matches, as the empty string is found at index 0 |
| Wildcards.PrefixDropsLastCharacter | test/Serilog.Enrichers.Sensitive.Tests.Benchmark/BenchmarkWildcardPropertyMatch.cs:68 | "Pro" matches "Prop*" although it does not start with "Prop" |
| Wildcards.InfixSkipsLeadingOccurrence | test/Serilog.Enrichers.Sensitive.Tests.Benchmark/BenchmarkWildcardPropertyMatch.cs:57 | "PropProp" does not match "*Prop*" although "Prop" occurs in it, at index 0 and again at index 4 |
| Wildcards.ShortPrefixMatchesAll | test/Serilog.Enrichers.Sensitive.Tests.Benchmark/BenchmarkWildcardPropertyMatch.cs:66-70 | a two-character "a*" matches every property name |
| Wildcards.InfixAfterOtherLetters | test/Serilog.Enrichers.Sensitive.Tests.Benchmark/BenchmarkWildcardPropertyMatch.cs:54-58 | lit preceded by characters that cannot start it matches "*lit*" |
| Wildcards.SuffixExamples | test/Serilog.Enrichers.Sensitive.Tests.Unit/WhenMaskingWildcardPropertyNames.cs:17-30 | "SomeProp" and "Prop" match "*Prop" |
| Wildcards.PrefixExample | test/Serilog.Enrichers.Sensitive.Tests.Benchmark/BenchmarkWildcardPropertyMatch.cs:66-70 | "PropTest" matches "Prop*" |
| Wildcards.InfixExample | test/Serilog.Enrichers.Sensitive.Tests.Unit/WhenMaskingWildcardPropertyNames.cs:65-78 | "SomePropTest" matches "*Prop*" |
| Wildcards.WildcardPrefix | test/Serilog.Enrichers.Sensitive.Tests.Benchmark/BenchmarkWildcardPropertyMatch.cs:66-70 | corrected "lit*": the property name starts with all of lit, ignoring case |
| Wildcards.WildcardInfix | test/Serilog.Enrichers.Sensitive.Tests.Benchmark/BenchmarkWildcardPropertyMatch.cs:54-58 | corrected "*lit*": lit occurs anywhere in the property name, ignoring case |
| Wildcards.WildcardSuffix | test/Serilog.Enrichers.Sensitive.Tests.Benchmark/BenchmarkWildcardPropertyMatch.cs:59-63 | the corrected matcher agrees with the original on "*lit" |

## Left out

- `MaskingSink.MaskException`: it rebuilds exceptions through reflection and serialization. The Timestamp, Level and Exception of a log event are not modelled either.
- Message-template parsing, and writing the template's backing field by reflection: the model stores the masked text as the template.
- The regex engine and the e-mail grammar: a `Regex` is an abstract pair of functions. `Lawful` and `NeedsAt` state what the proofs need of it (no change without a match; every match holds an '@').
- `.NET` `\d` also matches non-ASCII digits: the card and IBAN recognisers accept ASCII digits and letters only.
- Culture-aware `ToLower` and IgnoreCase comparisons are modelled as ASCII case folding.
- "$" substitutions in a .NET replacement string are taken literally. This matters only for a mask holding "$".
- The AsyncLocal flow of `SensitiveArea.Instance` between concurrent logical flows: the marker is one sequential cell.
- MaskOptions.Default is a shared mutable object in the source; the model treats option records as values, so aliasing of Default is not captured.
- The `Action<SensitiveDataEnricherOptions>` passed to the sink is modelled as an options object applied to the fresh defaults with `Apply`, not as arbitrary code.
- MaskingSinks.MaskingSink.Create: requires every configured operator to supply a Result whenever it reports a match. An operator that reports a match with a null Result would make the source's chain carry a null string.
- RegexMaskingOperators.AsOperator: requires a replacement pattern that string.Format accepts (`ValidFormat`). With any other pattern every call of Mask throws, whatever the input and the mask, and the chain is not modelled for such an operator.
- Regexes.Format: follows the parser of .NET Core and later. In that parser an item's format string ends at the first '}' and may hold no '{'. The .NET Framework parser instead reads "{{" and "}}" escapes inside an item's format string; that behaviour is not modelled. A string argument ignores the format string in both.
- Enrichers.ReplaceIsChain: requires that the e-mail regex changes nothing where it finds no match.
- IbanMaskingOperator.New: drops the optional mask-type argument (`IbanMaskingOperator.cs:7`), because in this version `RegexMaskingOperator` has no constructor that accepts one.
- A null property name passed to the wildcard matcher or to the collection, and null names inside the lists, are not modelled.
- In this version `CreditCardMaskingOperator` has no constructor taking a mask type, and no one-argument `Mask`. The card tests use both (`WhenMaskingCreditCards.cs:30`). The model keeps only the tests' table of expected outputs.
- Enrichers.Enrich: walks a snapshot of the property names. The source updates the dictionary while enumerating it, which some .NET runtimes reject with an InvalidOperationException; that failure is not modelled.
- `PathMaskingOperator`, the mask-type driven partial and URI masking, and the production `PropertyNameMatchesWildcard` are outside the modelled component.

## Findings

| source | as written | input that shows it | evidently intended | confidence | as-written member | corrected member |
|---|---|---|---|---|---|---|
| test/Serilog.Enrichers.Sensitive.Tests.Benchmark/BenchmarkWildcardPropertyMatch.cs:68 | "lit*" takes `Name.Substring(0, Name.Length - 2)`, dropping the last character of lit | name "Prop*", property "Pro": matches although it does not start with "Prop" | test the prefix `Name.Substring(0, Name.Length - 1)`, all of lit | high, not executed | Wildcards.PrefixDropsLastCharacter | Wildcards.WildcardPrefix |
| test/Serilog.Enrichers.Sensitive.Tests.Benchmark/BenchmarkWildcardPropertyMatch.cs:57 | "*lit*" requires `IndexOf(...) > 0`, so an occurrence at index 0 hides later ones | name "*Prop*", property "PropProp": no match although it contains "Prop" | accept any occurrence, `IndexOf(...) >= 0`. Under the narrower reading "lit occurs somewhere past index 0" the input should match as well, since "Prop" also occurs at index 4; either reading rejects the as-written answer | medium, not executed | Wildcards.InfixSkipsLeadingOccurrence | Wildcards.WildcardInfix |
