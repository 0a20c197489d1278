/** `CreditCardMaskingOperator`: a fixed choice, made at construction, between
    masking a whole card number and masking only its middle six digits. */
module CreditCardMaskingOperator {
  import opened Wrappers
  import opened Scanning
  import opened Patterns
  import opened MaskingResults
  import opened MaskingOperators

  datatype CreditCardMaskingOperator = CreditCardMaskingOperator(fullMask: bool)

  /** The parameterless constructor selects full masking. */
  function Default(): (op: CreditCardMaskingOperator)
    ensures op.fullMask
  {
    CreditCardMaskingOperator(true)
  }

  /** The regex the mode selects. */
  function MatcherFor(op: CreditCardMaskingOperator): (m: Matcher)
    ensures Sane(m)
  {
    if op.fullMask then CardFullMatcher() else CardPartialMatcher()
  }

  /** `Mask(input, mask)`: no preprocessing and no checksum. Match says the
      selected pattern occurs; without an occurrence Result is the input. In
      partial mode the substitution is `${leading4}` + mask + `${trailing6}`,
      which the recogniser gives as the kept lead and trail of each hit. */
  function Mask(op: CreditCardMaskingOperator, input: string, mask: string): (r: MaskingResult)
    ensures r.matched == IsMatch(MatcherFor(op), input)
    ensures r.result.Some?
    ensures !r.matched ==> r.result.value == input
  {
    var m := MatcherFor(op);
    MaskingResult(IsMatch(m, input), Some(Replace(m, input, mask)))
  }

  function AsOperator(op: CreditCardMaskingOperator): (o: MaskingOperator)
    ensures Reports(o)
  {
    MaskingOperator((s, m) => Mask(op, s, m))
  }

  // ---------------------------------------------------------------------
  // What the two patterns match, stated without the engine: four groups of
  // four digits; after the first an optional space or dash, and between the
  // later groups any number of copies of that same separator.

  predicate ValidSeparator(sep: Option<char>)
  {
    sep.None? || IsSeparator(sep.value)
  }

  function SepLen(sep: Option<char>, n: nat): nat
  {
    if sep.Some? then n else 0
  }

  /** s[x..y] consists of copies of the separator (and is empty without one). */
  predicate Repeats(s: string, x: nat, y: nat, sep: Option<char>)
  {
    x <= y <= |s| && forall k :: x <= k < y ==> sep.Some? && s[k] == sep.value
  }

  /** Where the second, third and fourth groups start, and where the number
      ends, for separator `sep` repeated 1, n2 and n3 times. */
  function GroupTwo(i: nat, sep: Option<char>): nat { i + 4 + SepLen(sep, 1) }
  function GroupThree(i: nat, sep: Option<char>, n2: nat): nat { GroupTwo(i, sep) + 4 + SepLen(sep, n2) }
  function GroupFour(i: nat, sep: Option<char>, n2: nat, n3: nat): nat { GroupThree(i, sep, n2) + 4 + SepLen(sep, n3) }
  function LayoutEnd(i: nat, sep: Option<char>, n2: nat, n3: nat): nat { GroupFour(i, sep, n2, n3) + 4 }

  predicate CardLayout(s: string, i: nat, sep: Option<char>, n2: nat, n3: nat)
  {
    var a, b, c := GroupTwo(i, sep), GroupThree(i, sep, n2), GroupFour(i, sep, n2, n3);
    && ValidSeparator(sep)
    && Run(s, i, 4, Digit) && Repeats(s, i + 4, a, sep)
    && Run(s, a, 4, Digit) && Repeats(s, a + 4, b, sep)
    && Run(s, b, 4, Digit) && Repeats(s, b + 4, c, sep)
    && Run(s, c, 4, Digit)
  }

  /** A greedy separator run stops exactly where the copies stop. */
  lemma {:induction false} SkipRepeatsExact(s: string, x: nat, y: nat, sep: Option<char>)
    requires Repeats(s, x, y, sep)
    requires sep.Some? ==> y == |s| || s[y] != sep.value
    ensures SkipRepeats(s, x, sep) == y
    decreases y - x
  {
    if x < y {
      assert sep.Some? && s[x] == sep.value;
      SkipRepeatsExact(s, x + 1, y, sep);
    }
  }

  /** Every full-mode hit is a card layout ending where the hit ends. */
  lemma FullSound(s: string, i: nat)
    requires i <= |s| && CardFullAt(s, i).Some?
    ensures exists sep, n2, n3 :: CardLayout(s, i, sep, n2, n3) && CardFullAt(s, i).value.end == LayoutEnd(i, sep, n2, n3)
    ensures CardFullAt(s, i).value.keepLead == 0 && CardFullAt(s, i).value.keepTrail == 0
  {
    var withSep :=
      if i + 4 < |s| && IsSeparator(s[i + 4]) then CardFullRest(s, i + 5, Some(s[i + 4])) else None;
    var sep: Option<char> := if withSep.Some? then Some(s[i + 4]) else None;
    var a := GroupTwo(i, sep);
    var k := SkipRepeats(s, a + 4, sep);
    var k2 := SkipRepeats(s, k + 4, sep);
    var n2, n3 := SepLen(sep, k - (a + 4)), SepLen(sep, k2 - (k + 4));
    assert GroupThree(i, sep, n2) == k;
    assert GroupFour(i, sep, n2, n3) == k2;
    assert CardLayout(s, i, sep, n2, n3);
  }

  /** Every card layout is found, in full, by a match attempt at its start. */
  lemma FullComplete(s: string, i: nat, sep: Option<char>, n2: nat, n3: nat)
    requires CardLayout(s, i, sep, n2, n3)
    ensures CardFullAt(s, i) == Some(Hit(LayoutEnd(i, sep, n2, n3), 0, 0))
  {
    var a, b, c := GroupTwo(i, sep), GroupThree(i, sep, n2), GroupFour(i, sep, n2, n3);
    SkipRepeatsExact(s, a + 4, b, sep);
    SkipRepeatsExact(s, b + 4, c, sep);
    if sep.None? {
      assert !IsSeparator(s[i + 4]);
    } else {
      assert s[i + 4] == sep.value;
    }
  }

  /** Every partial-mode hit is a card layout; it keeps the first group with
      its separator and the last six digits with theirs. */
  lemma PartialSound(s: string, i: nat)
    requires i <= |s| && CardPartialAt(s, i).Some?
    ensures exists sep, n2, n3 ::
      && CardLayout(s, i, sep, n2, n3)
      && CardPartialAt(s, i).value == Hit(LayoutEnd(i, sep, n2, n3), 4 + SepLen(sep, 1), LayoutEnd(i, sep, n2, n3) - (GroupThree(i, sep, n2) + 2))
  {
    var withSep :=
      if i + 4 < |s| && IsSeparator(s[i + 4]) then CardPartialRest(s, i, i + 5, Some(s[i + 4])) else None;
    var sep: Option<char> := if withSep.Some? then Some(s[i + 4]) else None;
    var a := GroupTwo(i, sep);
    var k := SkipRepeats(s, a + 4, sep);
    var k2 := SkipRepeats(s, k + 4, sep);
    var n2, n3 := SepLen(sep, k - (a + 4)), SepLen(sep, k2 - (k + 4));
    assert GroupThree(i, sep, n2) == k;
    assert GroupFour(i, sep, n2, n3) == k2;
    assert Run(s, k, 4, Digit) by { assert Run(s, k, 2, Digit) && Run(s, k + 2, 2, Digit); }
    assert CardLayout(s, i, sep, n2, n3);
  }

  /** Every card layout is found by a partial-mode match attempt at its
      start, with the same extent as in full mode. */
  lemma PartialComplete(s: string, i: nat, sep: Option<char>, n2: nat, n3: nat)
    requires CardLayout(s, i, sep, n2, n3)
    ensures CardPartialAt(s, i) ==
      Some(Hit(LayoutEnd(i, sep, n2, n3), 4 + SepLen(sep, 1), LayoutEnd(i, sep, n2, n3) - (GroupThree(i, sep, n2) + 2)))
  {
    var a, b, c := GroupTwo(i, sep), GroupThree(i, sep, n2), GroupFour(i, sep, n2, n3);
    SkipRepeatsExact(s, a + 4, b, sep);
    SkipRepeatsExact(s, b + 4, c, sep);
    assert Run(s, b, 2, Digit) && Run(s, b + 2, 2, Digit);
    if sep.None? {
      assert !IsSeparator(s[i + 4]);
    } else {
      assert s[i + 4] == sep.value;
    }
  }

  /** The two modes find matches at exactly the same places, with the same
      extent, so they agree on Match for every input. */
  lemma SameSpans(s: string, i: nat)
    requires i <= |s|
    ensures CardPartialAt(s, i).Some? <==> CardFullAt(s, i).Some?
    ensures CardPartialAt(s, i).Some? ==> CardPartialAt(s, i).value.end == CardFullAt(s, i).value.end
  {
    if CardPartialAt(s, i).Some? {
      PartialSound(s, i);
      var sep, n2, n3 :| CardLayout(s, i, sep, n2, n3) && CardPartialAt(s, i).value.end == LayoutEnd(i, sep, n2, n3);
      FullComplete(s, i, sep, n2, n3);
    }
    if CardFullAt(s, i).Some? {
      FullSound(s, i);
      var sep, n2, n3 :| CardLayout(s, i, sep, n2, n3) && CardFullAt(s, i).value.end == LayoutEnd(i, sep, n2, n3);
      PartialComplete(s, i, sep, n2, n3);
    }
  }

  // ---------------------------------------------------------------------
  // The library's own examples, for any four groups and any separator: a
  // number written as four groups is masked whole in full mode, and keeps
  // its first four and last six digits (with their separators) in partial
  // mode.

  function SepText(sep: Option<char>): string
  {
    if sep.Some? then [sep.value] else []
  }

  predicate FourDigits(g: string)
  {
    |g| == 4 && Run(g, 0, 4, Digit)
  }

  function Grouped(g1: string, g2: string, g3: string, g4: string, sep: Option<char>): string
  {
    g1 + SepText(sep) + g2 + SepText(sep) + g3 + SepText(sep) + g4
  }

  /** s[x..x+4] is the group g. */
  lemma GroupRun(s: string, x: nat, g: string)
    requires FourDigits(g) && x + 4 <= |s| && s[x..x + 4] == g
    ensures Run(s, x, 4, Digit)
  {
    forall j | x <= j < x + 4 ensures InClass(s[j], Digit) {
      assert s[j] == g[j - x];
    }
  }

  /** s[x..y] is the separator text. */
  lemma SepRepeats(s: string, x: nat, y: nat, sep: Option<char>)
    requires x <= y <= |s| && s[x..y] == SepText(sep)
    ensures Repeats(s, x, y, sep)
  {
    forall k | x <= k < y ensures sep.Some? && s[k] == sep.value {
      assert s[k] == SepText(sep)[k - x];
    }
  }

  lemma GroupedLayout(g1: string, g2: string, g3: string, g4: string, sep: Option<char>)
    requires ValidSeparator(sep)
    requires FourDigits(g1) && FourDigits(g2) && FourDigits(g3) && FourDigits(g4)
    ensures CardLayout(Grouped(g1, g2, g3, g4, sep), 0, sep, SepLen(sep, 1), SepLen(sep, 1))
    ensures LayoutEnd(0, sep, SepLen(sep, 1), SepLen(sep, 1)) == |Grouped(g1, g2, g3, g4, sep)|
  {
    var n := SepLen(sep, 1);
    var s := Grouped(g1, g2, g3, g4, sep);
    var a, b, c := GroupTwo(0, sep), GroupThree(0, sep, n), GroupFour(0, sep, n, n);
    GroupedSlices(g1, g2, g3, g4, sep);
    GroupRun(s, 0, g1);
    GroupRun(s, a, g2);
    GroupRun(s, b, g3);
    GroupRun(s, c, g4);
    SepRepeats(s, 4, a, sep);
    SepRepeats(s, a + 4, b, sep);
    SepRepeats(s, b + 4, c, sep);
  }

  /** Where each group and each separator sits in a grouped number. */
  lemma GroupedSlices(g1: string, g2: string, g3: string, g4: string, sep: Option<char>)
    requires |g1| == |g2| == |g3| == |g4| == 4
    ensures var s, n := Grouped(g1, g2, g3, g4, sep), SepLen(sep, 1);
      var a, b, c := GroupTwo(0, sep), GroupThree(0, sep, n), GroupFour(0, sep, n, n);
      && |s| == c + 4
      && s[0..4] == g1 && s[4..a] == SepText(sep) && s[a..a + 4] == g2 && s[a + 4..b] == SepText(sep)
      && s[b..b + 4] == g3 && s[b + 4..c] == SepText(sep) && s[c..c + 4] == g4
  {
    var n, t := SepLen(sep, 1), SepText(sep);
    var s := Grouped(g1, g2, g3, g4, sep);
    var a, b, c := GroupTwo(0, sep), GroupThree(0, sep, n), GroupFour(0, sep, n, n);
    var p1 := g1 + t;
    var p2 := p1 + g2;
    var p3 := p2 + t;
    var p4 := p3 + g3;
    var p5 := p4 + t;
    assert |t| == n;
    assert s == p5 + g4;
    assert s[..c] == p5 && s[c..] == g4;
    assert p5[..b + 4] == p4 && p5[b + 4..] == t;
    assert p4[..b] == p3 && p4[b..] == g3;
    assert p3[..a + 4] == p2 && p3[a + 4..] == t;
    assert p2[..a] == p1 && p2[a..] == g2;
    assert p1[..4] == g1 && p1[4..] == t;
  }

  lemma FullMasksGroupedNumber(g1: string, g2: string, g3: string, g4: string, sep: Option<char>, mask: string)
    requires ValidSeparator(sep)
    requires FourDigits(g1) && FourDigits(g2) && FourDigits(g3) && FourDigits(g4)
    ensures Mask(Default(), Grouped(g1, g2, g3, g4, sep), mask) == MaskingResult(true, Some(mask))
  {
    var n := SepLen(sep, 1);
    var s := Grouped(g1, g2, g3, g4, sep);
    GroupedLayout(g1, g2, g3, g4, sep);
    FullComplete(s, 0, sep, n, n);
    assert CardFullMatcher()(s, 0) == Some(Hit(|s|, 0, 0));
    assert IsMatch(CardFullMatcher(), s);
    WholeMatch(CardFullMatcher(), s, mask);
    assert s[..0] == [] && s[|s|..] == [];
    assert Replace(CardFullMatcher(), s, mask) == mask;
    assert MatcherFor(Default()) == CardFullMatcher();
  }

  lemma PartialKeepsFirstFourAndLastSix(g1: string, g2: string, g3: string, g4: string, sep: Option<char>, mask: string)
    requires ValidSeparator(sep)
    requires FourDigits(g1) && FourDigits(g2) && FourDigits(g3) && FourDigits(g4)
    ensures Mask(CreditCardMaskingOperator(false), Grouped(g1, g2, g3, g4, sep), mask)
      == MaskingResult(true, Some(g1 + SepText(sep) + mask + g3[2..] + SepText(sep) + g4))
  {
    var s, n, t := Grouped(g1, g2, g3, g4, sep), SepLen(sep, 1), SepText(sep);
    var b := GroupThree(0, sep, n);
    PartialWholeHit(g1, g2, g3, g4, sep);
    assert IsMatch(CardPartialMatcher(), s);
    WholeMatch(CardPartialMatcher(), s, mask);
    assert Replace(CardPartialMatcher(), s, mask) == s[..4 + n] + mask + s[b + 2..];
    GroupedEnds(g1, g2, g3, g4, sep);
    assert s[..4 + n] + mask + s[b + 2..] == g1 + t + mask + g3[2..] + t + g4;
  }

  /** In partial mode a grouped number is one hit that keeps the first
      group with its separator and the last six digits. */
  lemma PartialWholeHit(g1: string, g2: string, g3: string, g4: string, sep: Option<char>)
    requires ValidSeparator(sep)
    requires FourDigits(g1) && FourDigits(g2) && FourDigits(g3) && FourDigits(g4)
    ensures var s, n := Grouped(g1, g2, g3, g4, sep), SepLen(sep, 1);
      CardPartialMatcher()(s, 0) == Some(Hit(|s|, 4 + n, |s| - (GroupThree(0, sep, n) + 2)))
  {
    var n := SepLen(sep, 1);
    var s := Grouped(g1, g2, g3, g4, sep);
    GroupedLayout(g1, g2, g3, g4, sep);
    PartialComplete(s, 0, sep, n, n);
  }

  /** What the kept lead and trail of that hit spell. */
  lemma GroupedEnds(g1: string, g2: string, g3: string, g4: string, sep: Option<char>)
    requires FourDigits(g1) && FourDigits(g2) && FourDigits(g3) && FourDigits(g4)
    ensures var s, n := Grouped(g1, g2, g3, g4, sep), SepLen(sep, 1);
      && s[..4 + n] == g1 + SepText(sep)
      && s[GroupThree(0, sep, n) + 2..] == g3[2..] + SepText(sep) + g4
  {
    var n, t := SepLen(sep, 1), SepText(sep);
    var s := Grouped(g1, g2, g3, g4, sep);
    assert |t| == n;
    assert s == (g1 + t) + (g2 + t + g3[..2]) + (g3[2..] + t + g4);
  }

  /** The full-mode rows of the library's card-masking theory: sixteen
      digits written with spaces, with dashes or run together. */
  lemma FullModeRows()
    ensures Mask(Default(), "4111 1111 1111 1111", "***MASKED***").result == Some("***MASKED***")
    ensures Mask(Default(), "4111-1111-1111-1111", "***MASKED***").result == Some("***MASKED***")
    ensures Mask(Default(), "4111111111111111", "***MASKED***").result == Some("***MASKED***")
  {
    var g, m := "1111", "***MASKED***";
    assert Grouped("4111", g, g, g, Some(' ')) == "4111 1111 1111 1111";
    assert Grouped("4111", g, g, g, Some('-')) == "4111-1111-1111-1111";
    assert Grouped("4111", g, g, g, None) == "4111111111111111";
    FullMasksGroupedNumber("4111", g, g, g, Some(' '), m);
    FullMasksGroupedNumber("4111", g, g, g, Some('-'), m);
    FullMasksGroupedNumber("4111", g, g, g, None, m);
  }

  /** The partial-mode rows of the same theory: the first four and the last
      six digits stay, with the separators next to them. */
  lemma PartialModeSpaces()
    ensures Mask(CreditCardMaskingOperator(false), "4111 1111 1111 1111", "***MASKED***").result
      == Some("4111 ***MASKED***11 1111")
  {
    assert Grouped("4111", "1111", "1111", "1111", Some(' ')) == "4111 1111 1111 1111";
    assert "4111" + SepText(Some(' ')) + "***MASKED***" + "11" + SepText(Some(' ')) + "1111" == "4111 ***MASKED***11 1111";
    PartialRow("4111 1111 1111 1111", Some(' '), "4111 ***MASKED***11 1111");
  }

  lemma PartialModeDashes()
    ensures Mask(CreditCardMaskingOperator(false), "4111-1111-1111-1111", "***MASKED***").result
      == Some("4111-***MASKED***11-1111")
  {
    assert Grouped("4111", "1111", "1111", "1111", Some('-')) == "4111-1111-1111-1111";
    assert "4111" + SepText(Some('-')) + "***MASKED***" + "11" + SepText(Some('-')) + "1111" == "4111-***MASKED***11-1111";
    PartialRow("4111-1111-1111-1111", Some('-'), "4111-***MASKED***11-1111");
  }

  lemma PartialModeNoSeparator()
    ensures Mask(CreditCardMaskingOperator(false), "4111111111111111", "***MASKED***").result
      == Some("4111***MASKED***111111")
  {
    assert Grouped("4111", "1111", "1111", "1111", None) == "4111111111111111";
    assert "4111" + SepText(None) + "***MASKED***" + "11" + SepText(None) + "1111" == "4111***MASKED***111111";
    PartialRow("4111111111111111", None, "4111***MASKED***111111");
  }

  lemma PartialRow(s: string, sep: Option<char>, expected: string)
    requires ValidSeparator(sep)
    requires s == Grouped("4111", "1111", "1111", "1111", sep)
    requires expected == "4111" + SepText(sep) + "***MASKED***" + "11" + SepText(sep) + "1111"
    ensures Mask(CreditCardMaskingOperator(false), s, "***MASKED***").result == Some(expected)
  {
    var g := "1111";
    assert g[2..] == "11";
    PartialKeepsFirstFourAndLastSix("4111", g, g, g, sep, "***MASKED***");
  }
}
