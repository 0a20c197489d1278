/** The regular-expression engine is not modelled: a `Regex` is any pair of
    functions standing for `IsMatch` and `Replace`. What the model relies on
    about real regular expressions is stated as predicates over that pair.
    This module also holds `string.Format` with one argument, which turns a
    replacement pattern and the mask into the replacement text. */
module Regexes {
  import opened Wrappers

  /** `isMatch(s)` is `regex.IsMatch(s)`; `replace(s, m)` is
      `regex.Replace(s, m)`. */
  datatype Regex = Regex(isMatch: string -> bool, replace: (string, string) -> string)

  /** Replace changes nothing in a string where the regex finds no match. */
  ghost predicate Lawful(r: Regex)
  {
    forall s, m :: !r.isMatch(s) ==> r.replace(s, m) == s
  }

  /** Holds of a pattern whose every match contains a literal '@', as the
      email grammar does. */
  ghost predicate NeedsAt(r: Regex)
  {
    forall s :: r.isMatch(s) ==> '@' in s
  }

  // -------------------------------------------------------------------
  // `string.Format(pattern, arg)` with a single string argument, as the
  // .NET composite-format parser reads the pattern: literal text, the
  // escapes "{{" and "}}", and items `{index[,alignment][:format]}`.

  /** .NET reads the digits of an index or a width only while the value
      read so far is below this limit. */
  const DigitLimit: nat := 1000000

  predicate IsDigit(c: char)
  {
    '0' <= c <= '9'
  }

  function DigitValue(c: char): nat
    requires IsDigit(c)
  {
    c as int - '0' as int
  }

  /** Reads further digits of a number whose value so far is `v`: where the
      digits end and the value. */
  function Number(p: string, i: nat, v: nat): (r: (nat, nat))
    requires i <= |p|
    decreases |p| - i
    ensures i <= r.0 <= |p| && v <= r.1
    ensures forall k :: i <= k < r.0 ==> IsDigit(p[k])
    ensures r.0 == |p| || !IsDigit(p[r.0]) || r.1 >= DigitLimit
    ensures r.1 == 0 <==> v == 0 && forall k :: i <= k < r.0 ==> p[k] == '0'
  {
    if i < |p| && IsDigit(p[i]) && v < DigitLimit then Number(p, i + 1, v * 10 + DigitValue(p[i])) else (i, v)
  }

  /** The end of the run of spaces from `i`. */
  function SkipSpaces(p: string, i: nat): (j: nat)
    requires i <= |p|
    decreases |p| - i
    ensures i <= j <= |p|
    ensures forall k :: i <= k < j ==> p[k] == ' '
    ensures j == |p| || p[j] != ' '
  {
    if i < |p| && p[i] == ' ' then SkipSpaces(p, i + 1) else i
  }

  /** A format item read from just after its '{': the position after its
      '}', its index, and its alignment (left or right, and width). */
  datatype Item = Item(next: nat, index: nat, left: bool, width: nat)

  /** Parses an item from `i`, just after its '{'. None stands for the
      FormatException of a malformed item: the index must start with a
      digit; spaces may follow it; then an optional `,` with spaces, an
      optional '-' and the digits of the width, and spaces; then '}' or a
      ':' starting a format string that runs to the first '}' and holds no
      '{'. */
  function ParseItem(p: string, i: nat): (r: Option<Item>)
    requires i <= |p|
    ensures r.Some? ==> i < r.value.next <= |p| && p[r.value.next - 1] == '}'
  {
    if i == |p| || !IsDigit(p[i]) then None
    else
      var (j, index) := Number(p, i + 1, DigitValue(p[i]));
      match Alignment(p, SkipSpaces(p, j))
      case None => None
      case Some((m, left, width)) =>
        match ItemEnd(p, m)
        case None => None
        case Some(next) => Some(Item(next, index, left, width))
  }

  /** The optional alignment from `k`: the position after it and its
      trailing spaces, whether it is negative (left-aligned), and the
      width. */
  function Alignment(p: string, k: nat): (r: Option<(nat, bool, nat)>)
    requires k <= |p|
    ensures r.Some? ==> k <= r.value.0 <= |p|
    ensures k == |p| || p[k] != ',' ==> r == Some((k, false, 0))
  {
    if k == |p| || p[k] != ',' then Some((k, false, 0))
    else
      var a := SkipSpaces(p, k + 1);
      var left := a < |p| && p[a] == '-';
      var d := if left then a + 1 else a;
      if d == |p| || !IsDigit(p[d]) then None
      else
        var (e, width) := Number(p, d + 1, DigitValue(p[d]));
        Some((SkipSpaces(p, e), left, width))
  }

  /** The close of an item from `m`: a '}' there, or a ':' and a format
      string up to the first '}'. The position after the '}'. */
  function ItemEnd(p: string, m: nat): (r: Option<nat>)
    requires m <= |p|
    ensures r.Some? ==> m < r.value <= |p| && p[r.value - 1] == '}'
  {
    if m == |p| then None
    else if p[m] == '}' then Some(m + 1)
    else if p[m] != ':' then None
    else CloseBrace(p, m + 1)
  }

  /** The position after the first '}' from `n`, unless a '{' or the end of
      the pattern comes first. */
  function CloseBrace(p: string, n: nat): (r: Option<nat>)
    requires n <= |p|
    decreases |p| - n
    ensures r.Some? ==> n < r.value <= |p| && p[r.value - 1] == '}'
    ensures r.Some? ==> forall k :: n <= k < r.value - 1 ==> p[k] != '{' && p[k] != '}'
    ensures r.None? ==> forall k :: n <= k < |p| && p[k] == '}' ==> exists l :: n <= l < k && p[l] == '{'
  {
    if n == |p| || p[n] == '{' then None
    else if p[n] == '}' then Some(n + 1)
    else CloseBrace(p, n + 1)
  }

  function Spaces(n: nat): (r: string)
    ensures |r| == n && forall k :: 0 <= k < n ==> r[k] == ' '
  {
    seq(n, _ => ' ')
  }

  /** The argument padded with spaces to the item's width: on the left for
      a positive alignment, on the right for a negative one. A string
      argument ignores the format string, and a narrower width cuts
      nothing. */
  function Pad(arg: string, left: bool, width: nat): (r: string)
    ensures |r| == if width > |arg| then width else |arg|
    ensures left ==> r[..|arg|] == arg && forall k :: |arg| <= k < |r| ==> r[k] == ' '
    ensures !left ==> r[|r| - |arg|..] == arg && forall k :: 0 <= k < |r| - |arg| ==> r[k] == ' '
  {
    if width <= |arg| then arg
    else if left then arg + Spaces(width - |arg|)
    else Spaces(width - |arg|) + arg
  }

  /** The patterns string.Format accepts with one argument: literal text,
      "{{", "}}", and well-formed items whose index is 0 (any other index
      is out of range). */
  predicate ValidFormat(p: string)
    decreases |p|
  {
    if p == [] then true
    else if p[0] == '{' then
      if |p| >= 2 && p[1] == '{' then ValidFormat(p[2..])
      else
        var item := ParseItem(p, 1);
        item.Some? && item.value.index == 0 && ValidFormat(p[item.value.next..])
    else if p[0] == '}' then |p| >= 2 && p[1] == '}' && ValidFormat(p[2..])
    else ValidFormat(p[1..])
  }

  /** `string.Format(p, arg)`; None stands for the FormatException, which
      depends on the pattern only. */
  function Format(p: string, arg: string): (r: Option<string>)
    decreases |p|
    ensures r.Some? <==> ValidFormat(p)
  {
    if p == [] then Some([])
    else if p[0] == '{' then
      if |p| >= 2 && p[1] == '{' then Prepend("{", Format(p[2..], arg))
      else
        match ParseItem(p, 1)
        case None => None
        case Some(item) =>
          if item.index != 0 then None
          else Prepend(Pad(arg, item.left, item.width), Format(p[item.next..], arg))
    else if p[0] == '}' then
      if |p| >= 2 && p[1] == '}' then Prepend("}", Format(p[2..], arg)) else None
    else Prepend([p[0]], Format(p[1..], arg))
  }

  function Prepend(s: string, r: Option<string>): Option<string>
  {
    if r.Some? then Some(s + r.value) else None
  }

  /** The default replacement pattern "{0}" formats to the mask itself. */
  lemma FormatDefault(mask: string)
    ensures Format("{0}", mask) == Some(mask)
  {
    var p := "{0}";
    assert p[0] == '{' && p[1] == '0' && p[2] == '}' && p[3..] == [];
    assert Format(p[3..], mask) == Some([]);
    assert mask + [] == mask;
  }

  /** A pattern without braces is copied unchanged, whatever the argument. */
  lemma {:induction false} FormatLiteral(p: string, arg: string)
    requires '{' !in p && '}' !in p
    ensures Format(p, arg) == Some(p)
  {
    if p != [] {
      FormatLiteral(p[1..], arg);
      assert [p[0]] + p[1..] == p;
    }
  }

  /** Literal text before the rest of a pattern is copied in front of the
      rest's formatting. */
  lemma {:induction false} FormatLiteralPrefix(pre: string, rest: string, arg: string)
    requires '{' !in pre && '}' !in pre
    ensures Format(pre + rest, arg) == Prepend(pre, Format(rest, arg))
    decreases |pre|
  {
    if pre != [] {
      var p := pre + rest;
      assert p[0] == pre[0] && p[1..] == pre[1..] + rest;
      FormatLiteralPrefix(pre[1..], rest, arg);
      assert [pre[0]] + pre[1..] == pre;
      if Format(rest, arg).Some? {
        assert [pre[0]] + (pre[1..] + Format(rest, arg).value) == pre + Format(rest, arg).value;
      }
    } else {
      assert pre + rest == rest;
      if Format(rest, arg).Some? {
        assert pre + Format(rest, arg).value == Format(rest, arg).value;
      }
    }
  }

  /** A pattern with one "{0}" between literal texts puts the argument
      between them. */
  lemma FormatAroundItem(pre: string, post: string, arg: string)
    requires '{' !in pre && '}' !in pre && '{' !in post && '}' !in post
    ensures Format(pre + "{0}" + post, arg) == Some(pre + arg + post)
  {
    var item := "{0}" + post;
    assert pre + "{0}" + post == pre + item;
    FormatLiteralPrefix(pre, item, arg);
    assert ParseItem(item, 1) == Some(Item(3, 0, false, 0));
    assert item[3..] == post;
    FormatLiteral(post, arg);
    assert Pad(arg, false, 0) == arg;
    assert Format(item, arg) == Some(arg + post);
    assert pre + (arg + post) == pre + arg + post;
  }

  /** "{0,d}" pads the argument with spaces on the left to width d, and
      "{0,-d}" on the right. */
  lemma FormatAligned(d: char, left: bool, arg: string)
    requires IsDigit(d)
    ensures Format("{0," + (if left then "-" else "") + [d] + "}", arg) == Some(Pad(arg, left, DigitValue(d)))
  {
    var p := "{0," + (if left then "-" else "") + [d] + "}";
    var e := if left then 5 else 4;
    assert |p| == e + 1 && p[e - 1] == d && p[e] == '}';
    assert SkipSpaces(p, 3) == 3;
    assert Number(p, e, DigitValue(d)) == (e, DigitValue(d));
    assert Alignment(p, 2) == Some((e, left, DigitValue(d)));
    assert ParseItem(p, 1) == Some(Item(e + 1, 0, left, DigitValue(d)));
    assert p[e + 1..] == [];
    assert Pad(arg, left, DigitValue(d)) + [] == Pad(arg, left, DigitValue(d));
  }

  /** A string argument ignores the item's format string. */
  lemma FormatIgnoresFormatString(f: string, arg: string)
    requires '{' !in f && '}' !in f
    ensures Format("{0:" + f + "}", arg) == Some(arg)
  {
    var p := "{0:" + f + "}";
    assert p[3..3 + |f|] == f && p[3 + |f|] == '}';
    assert CloseBrace(p, 3) == Some(|p|) by {
      forall k | 3 <= k < |p| - 1 ensures p[k] != '{' && p[k] != '}' {
        assert p[k] == f[k - 3];
      }
      CloseBraceOver(p, 3, |p| - 1);
    }
    assert ParseItem(p, 1) == Some(Item(|p|, 0, false, 0));
    assert p[|p|..] == [];
    assert arg + [] == arg;
  }

  /** CloseBrace passes over text without braces up to the '}' at `c`. */
  lemma {:induction false} CloseBraceOver(p: string, n: nat, c: nat)
    requires n <= c < |p| && p[c] == '}'
    requires forall k :: n <= k < c ==> p[k] != '{' && p[k] != '}'
    ensures CloseBrace(p, n) == Some(c + 1)
    decreases c - n
  {
    if n < c {
      CloseBraceOver(p, n + 1, c);
    }
  }

  /** The index may carry leading zeros and be followed by spaces:
      "{00}" and "{0 }" format like "{0}". */
  lemma FormatZerosAndSpaces(z: string, sp: string, arg: string)
    requires z != [] && forall k :: 0 <= k < |z| ==> z[k] == '0'
    requires forall k :: 0 <= k < |sp| ==> sp[k] == ' '
    ensures Format("{" + z + sp + "}", arg) == Some(arg)
  {
    var p := "{" + z + sp + "}";
    var j, e := 1 + |z|, 1 + |z| + |sp|;
    assert forall k :: 1 <= k < j ==> p[k] == z[k - 1];
    assert forall k :: j <= k < e ==> p[k] == sp[k - j];
    assert p[e] == '}' && |p| == e + 1;
    ZerosRead(p, 2, j);
    SpacesRead(p, j, e);
    assert ParseItem(p, 1) == Some(Item(e + 1, 0, false, 0));
    assert p[e + 1..] == [];
    assert arg + [] == arg;
  }

  /** Reading a run of zeros up to `j`, ended by a non-digit, gives 0. */
  lemma {:induction false} ZerosRead(p: string, i: nat, j: nat)
    requires i <= j < |p| && !IsDigit(p[j])
    requires forall k :: i <= k < j ==> p[k] == '0'
    ensures Number(p, i, 0) == (j, 0)
    decreases j - i
  {
    if i < j {
      ZerosRead(p, i + 1, j);
    }
  }

  lemma {:induction false} SpacesRead(p: string, i: nat, e: nat)
    requires i <= e < |p| && p[e] != ' '
    requires forall k :: i <= k < e ==> p[k] == ' '
    ensures SkipSpaces(p, i) == e
    decreases e - i
  {
    if i < e {
      SpacesRead(p, i + 1, e);
    }
  }

  /** Examples: "{0,5}" pads on the left, "{0,-5}" on the right, and a
      width narrower than the argument cuts nothing. */
  lemma FormatRightAlignedExample()
    ensures Format("{0,5}", "ab") == Some("   ab")
  {
    FormatAligned('5', false, "ab");
    assert "{0," + "" + ['5'] + "}" == "{0,5}";
    assert Pad("ab", false, 5) == "   ab";
  }

  lemma FormatLeftAlignedExample()
    ensures Format("{0,-5}", "ab") == Some("ab   ")
  {
    FormatAligned('5', true, "ab");
    assert "{0," + "-" + ['5'] + "}" == "{0,-5}";
    assert Pad("ab", true, 5) == "ab   ";
  }

  lemma FormatNarrowWidthExample()
    ensures Format("{0,1}", "ab") == Some("ab")
  {
    FormatAligned('1', false, "ab");
    assert "{0," + "" + ['1'] + "}" == "{0,1}";
  }

  /** Examples: "{0:X}" ignores its format string, "{00}" and "{0 }"
      format like "{0}". */
  lemma FormatStringIgnoredExample()
    ensures Format("{0:X}", "ab") == Some("ab")
  {
    FormatIgnoresFormatString("X", "ab");
    assert "{0:" + "X" + "}" == "{0:X}";
  }

  lemma FormatZerosExample()
    ensures Format("{00}", "ab") == Some("ab")
  {
    FormatZerosAndSpaces("00", "", "ab");
    assert "{" + "00" + "" + "}" == "{00}";
  }

  lemma FormatSpacesExample()
    ensures Format("{0 }", "ab") == Some("ab")
  {
    FormatZerosAndSpaces("0", " ", "ab");
    assert "{" + "0" + " " + "}" == "{0 }";
  }

  /** Patterns that throw: an index other than 0, a space before the
      index, an unclosed item, a lone '}', a '{' in a format string and a
      '-' not followed by a width digit. */
  lemma FormatRejects(arg: string)
    ensures Format("{1}", arg) == None
    ensures Format("{ 0}", arg) == None
    ensures Format("{0", arg) == None
    ensures Format("}", arg) == None
    ensures Format("{0:{}", arg) == None
    ensures Format("{0,- 5}", arg) == None
  {
    assert Number("{1}", 2, 1) == (2, 1);
    assert Number("{0", 2, 0) == (2, 0);
    assert Number("{0:{}", 2, 0) == (2, 0);
    assert CloseBrace("{0:{}", 3) == None;
    assert Number("{0,- 5}", 2, 0) == (2, 0);
    assert SkipSpaces("{0,- 5}", 3) == 3;
  }
}
