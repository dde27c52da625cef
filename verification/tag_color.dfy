/** The tag-chip colours of the pin card and the pin detail panel (both components
    carry identical copies of these two helpers): a hue taken from a 32-bit string
    hash and rendered as an `hsl(h, s%, l%)` string, and the text colour chosen by
    reading the lightness back out of such a string. */
module TagColor {
  import opened Common
  import Entities

  const DARK_TEXT: string := "#333333"
  const LIGHT_TEXT: string := "#FFFFFF"

  // ---------------------------------------------------------------------------
  // The hue

  /** One round of the hash loop: `charCode + ((hash << 5) - hash)` in double
      arithmetic, then `hash & hash`, which reduces the sum to a signed 32-bit value.
      `hash << 5` itself is a 32-bit operation. */
  function HashStep(h: int, c: char): (r: int)
    requires MIN_INT32 <= h <= MAX_INT32
    ensures MIN_INT32 <= r <= MAX_INT32
  {
    Wrap32(c as int + (Wrap32(h * 32) - h))
  }

  /** The value of `hash` after the loop has consumed all of `s`. */
  function StringHash(s: string): (r: int)
    ensures MIN_INT32 <= r <= MAX_INT32
  {
    if s == [] then 0 else HashStep(StringHash(s[..|s| - 1]), s[|s| - 1])
  }

  /** The hue `stringToHslColor` renders: 0 for a null or empty string, otherwise
      `Math.abs(hash % 360)` with JavaScript's sign-of-dividend remainder. */
  function Hue(str: Option<string>): (h: nat)
    ensures h < 360
    ensures !StrTruthy(str) ==> h == 0
    ensures StrTruthy(str) ==> h == Abs(JsRem(Entities.JavaStringHash(str.value), 360))
  {
    if !StrTruthy(str) then 0
    else
      StringHashIsJavaHash(str.value);
      Abs(JsRem(StringHash(str.value), 360))
  }

  /** The template `hsl(${h}, ${s}%, ${l}%)`. */
  function HslString(h: nat, s: nat, l: nat): string {
    "hsl(" + NatToString(h) + ", " + NatToString(s) + "%, " + NatToString(l) + "%)"
  }

  /** `stringToHslColor(str, s, l)`: the hash loop over the characters of `str`. */
  method StringToHslColor(str: Option<string>, s: nat, l: nat) returns (color: string)
    ensures color == HslString(Hue(str), s, l)
  {
    if !StrTruthy(str) {
      return HslString(0, s, l);
    }
    var text := str.value;
    var hash := 0;
    for i := 0 to |text|
      invariant hash == StringHash(text[..i])
    {
      assert text[..i + 1][..i] == text[..i];
      hash := Wrap32(text[i] as int + (Wrap32(hash * 32) - hash));
    }
    assert text[..|text|] == text;
    var h := Abs(JsRem(hash, 360));
    return HslString(h, s, l);
  }

  /** Two integers congruent modulo 2^32 have the same signed 32-bit reduction. */
  lemma Wrap32Congruent(x: int, y: int, k: int)
    requires x == y + k * TWO_32
    ensures Wrap32(x) == Wrap32(y)
  {
  }

  /** The shift-and-subtract hash is Java's `31 * h + c` string hash in disguise. */
  lemma {:induction false} StringHashIsJavaHash(s: string)
    ensures StringHash(s) == Entities.JavaStringHash(s)
  {
    if s != [] {
      var p, c := s[..|s| - 1], s[|s| - 1];
      StringHashIsJavaHash(p);
      var h := StringHash(p);
      var w := Wrap32(h * 32);
      var q := (h * 32 - MIN_INT32) / TWO_32;
      assert w == h * 32 - q * TWO_32;
      Wrap32Congruent(31 * h + c as int, c as int + (w - h), q);
    }
  }

  // ---------------------------------------------------------------------------
  // Reading the lightness back

  predicate IsDigit(c: char) {
    '0' <= c <= '9'
  }

  /** The end of the run of `\s` characters that starts at `i`. */
  function SkipWs(s: string, i: nat): (j: nat)
    requires i <= |s|
    ensures i <= j <= |s|
    decreases |s| - i
  {
    if i < |s| && IsJsWhitespace(s[i]) then SkipWs(s, i + 1) else i
  }

  /** The end of the run of decimal digits that starts at `i`. */
  function SkipDigits(s: string, i: nat): (j: nat)
    requires i <= |s|
    ensures i <= j <= |s|
    decreases |s| - i
  {
    if i < |s| && IsDigit(s[i]) then SkipDigits(s, i + 1) else i
  }

  /** `\s*\d+` at `i`: the span of the digits. */
  function Number(s: string, i: nat): (r: Option<(nat, nat)>)
    requires i <= |s|
    ensures r.Some? ==> i <= r.value.0 < r.value.1 <= |s|
  {
    var a := SkipWs(s, i);
    var b := SkipDigits(s, a);
    if a < b then Some((a, b)) else None
  }

  /** The character `c` at `i`: the index after it. */
  function Char(s: string, i: nat, c: char): (r: Option<nat>)
    requires i <= |s|
    ensures r.Some? ==> r.value == i + 1 <= |s|
  {
    if i < |s| && s[i] == c then Some(i + 1) else None
  }

  /** `\s*` then the character `c` at `i`: the index after `c`. */
  function Sep(s: string, i: nat, c: char): (r: Option<nat>)
    requires i <= |s|
    ensures r.Some? ==> i < r.value <= |s|
  {
    Char(s, SkipWs(s, i), c)
  }

  /** `hsl(\s*\d+\s*,` at `i`: the index after the comma. */
  function Prefix(s: string, i: nat): (r: Option<nat>)
    requires i <= |s|
    ensures r.Some? ==> i < r.value <= |s|
  {
    if !(i + 4 <= |s| && s[i..i + 4] == "hsl(") then None
    else match Number(s, i + 4)
    case None => None
    case Some(n1) => Sep(s, n1.1, ',')
  }

  /** `\s*(\d+)%` at `i`: the span of the digits, which the percent sign follows. */
  function Percentage(s: string, i: nat): (r: Option<(nat, nat)>)
    requires i <= |s|
    ensures r.Some? ==> i <= r.value.0 < r.value.1 < |s| && s[r.value.1] == '%'
  {
    match Number(s, i)
    case None => None
    case Some(n) => if Char(s, n.1, '%').Some? then Some(n) else None
  }

  /** The second capture group of `/hsl\(\s*\d+\s*,\s*(\d+)%\s*,\s*(\d+)%\s*\)/`
      when the pattern matches at index `i`. Each `\s*` and `\d+` is followed by a
      character it cannot consume, so the greedy first attempt is the only one and
      no backtracking is needed. */
  function MatchAt(s: string, i: nat): Option<string>
    requires i <= |s|
  {
    Stages(s, 0, i, (0, 0))
  }

  /** The pattern from stage `k` on, at index `j`, with `g` the span of the group
      captured last: stage 0 is `hsl(\s*\d+\s*,`, stages 1 and 3 the two
      percentages, stage 2 the comma between them and stage 4 the closing
      parenthesis. */
  function Stages(s: string, k: nat, j: nat, g: (nat, nat)): Option<string>
    requires j <= |s| && g.0 <= g.1 <= |s|
    decreases 5 - k
  {
    if k >= 5 then Some(s[g.0..g.1])
    else if k == 0 then
      match Prefix(s, j)
      case None => None
      case Some(c) => Stages(s, 1, c, g)
    else if k == 1 || k == 3 then
      match Percentage(s, j)
      case None => None
      case Some(n) => Stages(s, k + 1, n.1 + 1, n)
    else
      match Sep(s, j, if k == 2 then ',' else ')')
      case None => None
      case Some(c) => Stages(s, k + 1, c, g)
  }

  /** `String.prototype.match` without the global flag: the leftmost match at or
      after `i`. */
  function FirstMatch(s: string, i: nat): Option<string>
    requires i <= |s|
    decreases |s| - i
  {
    if MatchAt(s, i).Some? then MatchAt(s, i)
    else if i == |s| then None
    else FirstMatch(s, i + 1)
  }

  function DigitValue(c: char): nat {
    if IsDigit(c) then c as int - '0' as int else 0
  }

  /** `parseInt` of a string of decimal digits. */
  function DigitsValue(d: string): nat {
    if d == [] then 0 else 10 * DigitsValue(d[..|d| - 1]) + DigitValue(d[|d| - 1])
  }

  /** `getContrastYIQ`: dark text when the lightness read from the colour is at
      least 60 or nothing can be read, white text below 60. */
  function GetContrastYiq(color: string): (r: string)
    ensures r == DARK_TEXT || r == LIGHT_TEXT
  {
    match FirstMatch(color, 0)
    case None => DARK_TEXT
    case Some(g) => if DigitsValue(g) >= 60 then DARK_TEXT else LIGHT_TEXT
  }

  lemma {:induction false} DigitsOfNat(n: nat)
    ensures DigitsValue(NatToString(n)) == n
  {
    if n >= 10 {
      var p := NatToString(n / 10);
      DigitsOfNat(n / 10);
      var d := NatToString(n);
      assert d == p + [('0' as int + n % 10) as char];
      assert d[..|d| - 1] == p;
    }
  }

  lemma {:induction false} SkipDigitsRun(s: string, i: nat, n: nat)
    requires i + n <= |s|
    requires forall k :: i <= k < i + n ==> IsDigit(s[k])
    requires i + n == |s| || !IsDigit(s[i + n])
    ensures SkipDigits(s, i) == i + n
    decreases n
  {
    if n > 0 {
      SkipDigitsRun(s, i + 1, n - 1);
    }
  }

  lemma {:induction false} SkipDigitsScansDigits(s: string, i: nat)
    requires i <= |s|
    ensures forall k :: i <= k < SkipDigits(s, i) ==> IsDigit(s[k])
    decreases |s| - i
  {
    if i < |s| && IsDigit(s[i]) {
      SkipDigitsScansDigits(s, i + 1);
    }
  }

  /** Every character of `s[a..b]` is a digit, and there is at least one. */
  predicate DigitsIn(s: string, a: nat, b: nat) {
    a < b <= |s| && forall m :: a <= m < b ==> IsDigit(s[m])
  }

  lemma PercentageDigits(s: string, i: nat)
    requires i <= |s|
    ensures var r := Percentage(s, i);
      r.Some? ==> DigitsIn(s, r.value.0, r.value.1)
  {
    SkipDigitsScansDigits(s, SkipWs(s, i));
  }

  lemma SliceOfDigits(s: string, a: nat, b: nat)
    requires DigitsIn(s, a, b)
    ensures DigitString(s[a..b])
  {
    assert forall m :: 0 <= m < b - a ==> s[a..b][m] == s[a + m];
  }

  // The group the stages capture from each stage on is a digit string.

  lemma ClosingCaptures(s: string, j: nat, g: (nat, nat))
    requires j <= |s| && DigitsIn(s, g.0, g.1)
    ensures Stages(s, 4, j, g).Some? ==> DigitString(Stages(s, 4, j, g).value)
  {
    SliceOfDigits(s, g.0, g.1);
  }

  lemma SecondGroupCaptures(s: string, j: nat, g: (nat, nat))
    requires j <= |s| && g.0 <= g.1 <= |s|
    ensures Stages(s, 3, j, g).Some? ==> DigitString(Stages(s, 3, j, g).value)
  {
    PercentageDigits(s, j);
    match Percentage(s, j)
    case None =>
    case Some(n) => ClosingCaptures(s, n.1 + 1, n);
  }

  lemma MiddleCaptures(s: string, j: nat, g: (nat, nat))
    requires j <= |s| && g.0 <= g.1 <= |s|
    ensures Stages(s, 2, j, g).Some? ==> DigitString(Stages(s, 2, j, g).value)
  {
    match Sep(s, j, ',')
    case None =>
    case Some(c) => SecondGroupCaptures(s, c, g);
  }

  lemma FirstGroupCaptures(s: string, j: nat, g: (nat, nat))
    requires j <= |s| && g.0 <= g.1 <= |s|
    ensures Stages(s, 1, j, g).Some? ==> DigitString(Stages(s, 1, j, g).value)
  {
    match Percentage(s, j)
    case None =>
    case Some(n) => MiddleCaptures(s, n.1 + 1, n);
  }

  /** Whatever the pattern captures is a non-empty run of decimal digits, so
      `parseInt` reads it in full. */
  lemma CapturedGroupIsDigits(s: string, i: nat)
    requires i <= |s|
    ensures MatchAt(s, i).Some? ==> DigitString(MatchAt(s, i).value)
  {
    match Prefix(s, i)
    case None =>
    case Some(c) => FirstGroupCaptures(s, c, (0, 0));
  }

  lemma SkipWsStop(s: string, i: nat)
    requires i < |s| && !IsJsWhitespace(s[i])
    ensures SkipWs(s, i) == i
  {
  }

  lemma SkipWsOne(s: string, i: nat)
    requires i + 1 < |s| && IsJsWhitespace(s[i]) && !IsJsWhitespace(s[i + 1])
    ensures SkipWs(s, i) == i + 1
  {
  }

  /** The layout of a colour string `hsl(H, S%, L%)`: where its three numbers and
      its punctuation sit. */
  predicate HslLayoutOf(str: string, H: string, S: string, L: string) {
    var p1 := 4 + |H|;
    var p2 := p1 + 2 + |S|;
    var p3 := p2 + 3 + |L|;
    && |str| == p3 + 2
    && str[0..4] == "hsl("
    && str[4..p1] == H && str[p1 + 2..p2] == S && str[p2 + 3..p3] == L
    && str[p1] == ',' && str[p1 + 1] == ' '
    && str[p2] == '%' && str[p2 + 1] == ',' && str[p2 + 2] == ' '
    && str[p3] == '%' && str[p3 + 1] == ')'
  }

  lemma HslLayout(H: string, S: string, L: string)
    ensures HslLayoutOf("hsl(" + H + ", " + S + "%, " + L + "%)", H, S, L)
  {
    var x1 := "hsl(" + H;
    var x2 := x1 + ", ";
    var x3 := x2 + S;
    var x4 := x3 + "%, ";
    var x5 := x4 + L;
    var str := x5 + "%)";
    assert str[..|x5|] == x5;
    assert x5[..|x4|] == x4;
    assert x4[..|x3|] == x3;
    assert x3[..|x2|] == x2;
    assert x2[..|x1|] == x1;
    assert str[0..4] == x1[..4];
    assert str[4..4 + |H|] == x1[4..];
    assert str[|x2|..|x3|] == x3[|x2|..];
    assert str[|x4|..|x5|] == x5[|x4|..];
  }

  predicate DigitString(d: string) {
    d != [] && forall k :: 0 <= k < |d| ==> IsDigit(d[k])
  }

  /** A digit string `d` that sits in `str` at `i`, possibly after one space, and
      is followed by a non-digit, is the number read at `i`. */
  lemma NumberOver(str: string, i: nat, w: nat, d: string)
    requires DigitString(d) && w <= 1
    requires i + w + |d| < |str| && str[i + w..i + w + |d|] == d && !IsDigit(str[i + w + |d|])
    requires w == 1 ==> str[i] == ' '
    ensures Number(str, i) == Some((i + w, i + w + |d|))
  {
    assert forall k :: i + w <= k < i + w + |d| ==> str[k] == d[k - i - w];
    SkipDigitsRun(str, i + w, |d|);
    assert str[i + w] == d[0];
    if w == 0 {
      SkipWsStop(str, i);
    } else {
      SkipWsOne(str, i);
    }
  }

  /** Where the three numbers of a colour string laid out by `HslLayoutOf` end. */
  predicate EndsOf(H: string, S: string, L: string, p1: nat, p2: nat, p3: nat) {
    p1 == 4 + |H| && p2 == p1 + 2 + |S| && p3 == p2 + 3 + |L|
  }

  lemma LayoutPrefix(str: string, H: string, S: string, L: string, p1: nat, p2: nat, p3: nat)
    requires DigitString(H) && HslLayoutOf(str, H, S, L) && EndsOf(H, S, L, p1, p2, p3)
    ensures Prefix(str, 0) == Some(p1 + 1)
  {
    NumberOver(str, 4, 0, H);
    SkipWsStop(str, p1);
  }

  lemma LayoutGroups(str: string, H: string, S: string, L: string, p1: nat, p2: nat, p3: nat)
    requires DigitString(S) && DigitString(L) && HslLayoutOf(str, H, S, L) && EndsOf(H, S, L, p1, p2, p3)
    ensures Percentage(str, p1 + 1) == Some((p1 + 2, p2))
    ensures Percentage(str, p2 + 2) == Some((p2 + 3, p3))
  {
    NumberOver(str, p1 + 1, 1, S);
    NumberOver(str, p2 + 2, 1, L);
  }

  lemma LayoutSeparators(str: string, H: string, S: string, L: string, p1: nat, p2: nat, p3: nat)
    requires HslLayoutOf(str, H, S, L) && EndsOf(H, S, L, p1, p2, p3)
    ensures Sep(str, p2 + 1, ',') == Some(p2 + 2)
    ensures Sep(str, p3 + 1, ')') == Some(p3 + 2)
  {
    SkipWsStop(str, p2 + 1);
    SkipWsStop(str, p3 + 1);
  }

  /** Five stages that each succeed where the previous one stopped make the
      pattern match, capturing the second percentage. */
  lemma StagesThrough(s: string, p1: nat, p2: nat, p3: nat)
    requires p3 + 2 <= |s|
    requires Prefix(s, 0) == Some(p1 + 1)
    requires Percentage(s, p1 + 1) == Some((p1 + 2, p2))
    requires Sep(s, p2 + 1, ',') == Some(p2 + 2)
    requires Percentage(s, p2 + 2) == Some((p2 + 3, p3))
    requires Sep(s, p3 + 1, ')') == Some(p3 + 2)
    ensures MatchAt(s, 0) == Some(s[p2 + 3..p3])
  {
    var L := s[p2 + 3..p3];
    assert Stages(s, 4, p3 + 1, (p2 + 3, p3)) == Some(L);
    assert Stages(s, 3, p2 + 2, (p1 + 2, p2)) == Some(L);
    assert Stages(s, 2, p2 + 1, (p1 + 2, p2)) == Some(L);
    assert Stages(s, 1, p1 + 1, (0, 0)) == Some(L);
  }

  /** The pattern matches `hsl(H, S%, L%)` at its start for digit strings H, S and
      L, and the group it captures is L. */
  lemma MatchOfLayout(str: string, H: string, S: string, L: string)
    requires DigitString(H) && DigitString(S) && DigitString(L)
    requires HslLayoutOf(str, H, S, L)
    ensures MatchAt(str, 0) == Some(L)
  {
    var p1 := 4 + |H|;
    var p2 := p1 + 2 + |S|;
    var p3 := p2 + 3 + |L|;
    LayoutPrefix(str, H, S, L, p1, p2, p3);
    LayoutGroups(str, H, S, L, p1, p2, p3);
    LayoutSeparators(str, H, S, L, p1, p2, p3);
    StagesThrough(str, p1, p2, p3);
  }

  /** The pattern matches a rendered colour at its start, and the group it
      captures is the rendered lightness. */
  lemma MatchOfHsl(h: nat, s: nat, l: nat)
    ensures MatchAt(HslString(h, s, l), 0) == Some(NatToString(l))
  {
    var H, S, L := NatToString(h), NatToString(s), NatToString(l);
    HslLayout(H, S, L);
    MatchOfLayout(HslString(h, s, l), H, S, L);
  }

  /** The text colour of every generated chip colour depends only on the lightness
      it was rendered with: dark from 60 up (so always dark at the default 75),
      white below. */
  lemma ContrastOfGenerated(h: nat, s: nat, l: nat)
    ensures GetContrastYiq(HslString(h, s, l)) == (if l >= 60 then DARK_TEXT else LIGHT_TEXT)
  {
    MatchOfHsl(h, s, l);
    DigitsOfNat(l);
  }

  // ---------------------------------------------------------------------------
  // Tag chips

  const DEFAULT_SATURATION: nat := 60
  const DEFAULT_LIGHTNESS: nat := 75

  /** A tag chip as the card and the detail panel draw it. */
  datatype Chip = Chip(caption: string, background: string, textColor: string)

  /** The chip of a tag named `name`: labelled `name || 'untagged'`, coloured by
      `stringToHslColor` of the label with the default saturation and lightness, with text
      coloured by `getContrastYIQ` of that background. */
  function TagChip(name: Option<string>): Chip {
    var caption := OrElse(name, "untagged");
    var background := HslString(Hue(Some(caption)), DEFAULT_SATURATION, DEFAULT_LIGHTNESS);
    Chip(caption, background, GetContrastYiq(background))
  }

  /** Every chip has a non-empty label and, being drawn at lightness 75, dark text. */
  lemma ChipTextIsDark(name: Option<string>)
    ensures TagChip(name).textColor == DARK_TEXT
    ensures TagChip(name).caption != []
    ensures StrTruthy(name) ==> TagChip(name).caption == name.value
  {
    var caption := OrElse(name, "untagged");
    ContrastOfGenerated(Hue(Some(caption)), DEFAULT_SATURATION, DEFAULT_LIGHTNESS);
  }
}
