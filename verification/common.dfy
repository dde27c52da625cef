/** Values and string/sequence helpers shared by the client and the server models:
    JavaScript truthiness, 32-bit wrap-around, trimming, ASCII case mapping,
    substring search, decimal rendering, and first-occurrence de-duplication. */
module Common {

  datatype Option<+T> = None | Some(value: T) {
    function GetOr(default: T): T {
      match this
      case Some(v) => v
      case None => default
    }
  }

  /** A `{lat, lng}` coordinate pair as the map and the API exchange it. */
  datatype LatLng = LatLng(lat: real, lng: real)

  /** JavaScript truthiness of an id that is a number or null/undefined:
      `null`, `undefined` and `0` are falsy. */
  predicate Truthy(id: Option<int>) {
    id.Some? && id.value != 0
  }

  /** JavaScript truthiness of a string that may be null/undefined. */
  predicate StrTruthy(s: Option<string>) {
    s.Some? && s.value != ""
  }

  /** `s || fallback` for a possibly-null string. */
  function OrElse(s: Option<string>, fallback: string): (r: string)
    ensures StrTruthy(s) ==> r == s.value
    ensures !StrTruthy(s) ==> r == fallback
  {
    if StrTruthy(s) then s.value else fallback
  }

  // ---------------------------------------------------------------------------
  // 32-bit integers

  const TWO_32: int := 0x1_0000_0000
  const MIN_INT32: int := -0x8000_0000
  const MAX_INT32: int := 0x7FFF_FFFF

  /** Two's-complement reduction to a signed 32-bit integer (JavaScript `ToInt32`,
      Java `int` overflow). */
  function Wrap32(x: int): (r: int)
    ensures MIN_INT32 <= r <= MAX_INT32
    ensures (x - r) % TWO_32 == 0
    ensures MIN_INT32 <= x <= MAX_INT32 ==> r == x
  {
    (x - MIN_INT32) % TWO_32 + MIN_INT32
  }

  /** JavaScript `a % b` for b > 0: the remainder takes the sign of the dividend. */
  function JsRem(a: int, b: int): (r: int)
    requires b > 0
    ensures -b < r < b
    ensures a >= 0 ==> 0 <= r
    ensures a <= 0 ==> r <= 0
    ensures (a - r) % b == 0
  {
    RemainderLeavesMultiple(if a >= 0 then a else -a, b);
    if a >= 0 then a % b else -((-a) % b)
  }

  /** Removing its remainder from `x` leaves a multiple of `b`, with either sign. */
  lemma RemainderLeavesMultiple(x: int, b: int)
    requires b > 0
    ensures (x - x % b) % b == 0
    ensures (-(x - x % b)) % b == 0
  {
    var q := x / b;
    assert x - x % b == b * q;
    MultipleRem(q, b);
    assert -(b * q) == b * (-q);
    MultipleRem(-q, b);
  }

  lemma MultipleRem(q: int, b: int)
    requires b > 0
    ensures (b * q) % b == 0
  {
    var x := b * q;
    var d := x / b;
    assert x == b * d + x % b;
    var k := q - d;
    assert x % b == b * k;
    MulBounds(k, b);
    assert k == 0;
  }

  lemma MulBounds(k: int, b: int)
    requires b > 0
    ensures k >= 1 ==> b * k >= b
    ensures k <= -1 ==> b * k <= -b
  {
  }

  function Abs(x: int): (r: nat)
    ensures r == x || r == -x
  {
    if x < 0 then -x else x
  }

  // ---------------------------------------------------------------------------
  // Characters and strings

  /** The characters removed by JavaScript's `String.prototype.trim`
      (WhiteSpace and LineTerminator code points). */
  predicate IsJsWhitespace(c: char) {
    c == ' ' || c == '\t' || c == '\n' || c == '\r' || c == '\U{000B}' || c == '\U{000C}'
    || c == '\U{00A0}' || c == '\U{1680}' || ('\U{2000}' <= c <= '\U{200A}')
    || c == '\U{2028}' || c == '\U{2029}' || c == '\U{202F}' || c == '\U{205F}'
    || c == '\U{3000}' || c == '\U{FEFF}'
  }

  /** The characters removed by Java's `String.trim`: every code point up to U+0020. */
  predicate IsJavaTrimmable(c: char) {
    c <= ' '
  }

  datatype TrimRule = JsTrim | JavaTrim

  predicate Trimmable(rule: TrimRule, c: char) {
    match rule
    case JsTrim => IsJsWhitespace(c)
    case JavaTrim => IsJavaTrimmable(c)
  }

  function TrimStart(rule: TrimRule, s: string): (r: string)
    ensures |r| <= |s| && r == s[|s| - |r|..]
    ensures r != [] ==> !Trimmable(rule, r[0])
    ensures forall i :: 0 <= i < |s| - |r| ==> Trimmable(rule, s[i])
  {
    if s != [] && Trimmable(rule, s[0]) then TrimStart(rule, s[1..]) else s
  }

  function TrimEnd(rule: TrimRule, s: string): (r: string)
    ensures |r| <= |s| && r == s[..|r|]
    ensures r != [] ==> !Trimmable(rule, r[|r| - 1])
    ensures forall i :: |r| <= i < |s| ==> Trimmable(rule, s[i])
  {
    if s != [] && Trimmable(rule, s[|s| - 1]) then TrimEnd(rule, s[..|s| - 1]) else s
  }

  /** `trim()`: the longest slice of `s` that neither starts nor ends with a trimmable
      character; everything cut off on either side is trimmable. */
  function Trim(rule: TrimRule, s: string): (r: string)
    ensures exists i :: 0 <= i && TrimmedAt(rule, s, r, i)
    ensures r != [] ==> !Trimmable(rule, r[0]) && !Trimmable(rule, r[|r| - 1])
    ensures r == [] <==> forall i :: 0 <= i < |s| ==> Trimmable(rule, s[i])
  {
    var a := TrimStart(rule, s);
    var r := TrimEnd(rule, a);
    SliceOfSuffixPrefix(s, a, r);
    TrimmedTail(rule, s, a, r);
    TrimmedEmpty(rule, s, a, r);
    assert r != [] ==> r[0] == a[0];
    assert TrimmedAt(rule, s, r, |s| - |a|);
    r
  }

  /** `r` sits in `s` at `i`, and every character before and after it is trimmable. */
  predicate TrimmedAt(rule: TrimRule, s: string, r: string, i: nat) {
    && SliceAt(s, r, i)
    && (forall k :: 0 <= k < i ==> Trimmable(rule, s[k]))
    && (forall k :: i + |r| <= k < |s| ==> Trimmable(rule, s[k]))
  }

  /** What is cut from the end of a suffix of `s` is cut from the end of `s`. */
  lemma TrimmedTail(rule: TrimRule, s: string, a: string, r: string)
    requires |a| <= |s| && a == s[|s| - |a|..]
    requires |r| <= |a| && forall i :: |r| <= i < |a| ==> Trimmable(rule, a[i])
    ensures forall k :: |s| - |a| + |r| <= k < |s| ==> Trimmable(rule, s[k])
  {
    forall k | |s| - |a| + |r| <= k < |s|
      ensures Trimmable(rule, s[k])
    {
      assert s[k] == a[k - (|s| - |a|)];
    }
  }

  /** A prefix of a suffix of `s` is a slice of `s`. */
  lemma SliceOfSuffixPrefix(s: string, a: string, r: string)
    requires |a| <= |s| && a == s[|s| - |a|..]
    requires |r| <= |a| && r == a[..|r|]
    ensures SliceAt(s, r, |s| - |a|)
  {
    assert s[|s| - |a|..|s| - |a| + |r|] == r;
  }

  /** Nothing is left of `s` after cutting a trimmable run from each end exactly
      when every character of `s` is trimmable. */
  lemma TrimmedEmpty(rule: TrimRule, s: string, a: string, r: string)
    requires |a| <= |s| && a == s[|s| - |a|..]
    requires forall i :: 0 <= i < |s| - |a| ==> Trimmable(rule, s[i])
    requires a != [] ==> !Trimmable(rule, a[0])
    requires forall i :: |r| <= i < |a| ==> Trimmable(rule, a[i])
    requires |r| <= |a| && r == a[..|r|]
    ensures r == [] <==> forall i :: 0 <= i < |s| ==> Trimmable(rule, s[i])
  {
    var k := |s| - |a|;
    if r == [] {
      assert a == [];
    } else {
      assert s[k] == a[0];
    }
  }

  /** Trimming an already trimmed string changes nothing. */
  lemma TrimIdempotent(rule: TrimRule, s: string)
    ensures Trim(rule, Trim(rule, s)) == Trim(rule, s)
  {
    var r := Trim(rule, s);
    assert TrimStart(rule, r) == r;
    assert TrimEnd(rule, r) == r;
  }

  /** ASCII lower-casing of one character (`toLowerCase` restricted to A-Z). */
  function LowerChar(c: char): (r: char)
    ensures 'A' <= c <= 'Z' ==> 'a' <= r <= 'z'
    ensures !('A' <= c <= 'Z') ==> r == c
  {
    if 'A' <= c <= 'Z' then (c as int + 32) as char else c
  }

  /** `toLowerCase()` restricted to ASCII letters. */
  function Lower(s: string): (r: string)
    ensures |r| == |s|
    ensures forall i :: 0 <= i < |s| ==> r[i] == LowerChar(s[i])
  {
    seq(|s|, i requires 0 <= i < |s| => LowerChar(s[i]))
  }

  lemma LowerCharIdempotent(c: char)
    ensures LowerChar(LowerChar(c)) == LowerChar(c)
  {
  }

  /** `needle` occurs in `hay` starting at index `i`. */
  predicate SliceAt(hay: string, needle: string, i: nat) {
    i + |needle| <= |hay| && hay[i..i + |needle|] == needle
  }

  /** `hay.includes(needle)`. */
  predicate Contains(hay: string, needle: string) {
    exists i :: 0 <= i <= |hay| && SliceAt(hay, needle, i)
  }

  /** Decimal rendering of a natural number, as `${n}` does. */
  function NatToString(n: nat): (r: string)
    ensures |r| >= 1
    ensures forall i :: 0 <= i < |r| ==> '0' <= r[i] <= '9'
    ensures n < 10 ==> r == [('0' as int + n) as char]
  {
    var d := [('0' as int + n % 10) as char];
    if n < 10 then d else NatToString(n / 10) + d
  }

  /** `parts.join(sep)`. */
  function Join(parts: seq<string>, sep: string): (r: string)
    ensures parts == [] ==> r == ""
    ensures |parts| == 1 ==> r == parts[0]
  {
    if parts == [] then ""
    else if |parts| == 1 then parts[0]
    else Join(parts[..|parts| - 1], sep) + sep + parts[|parts| - 1]
  }

  /** Joining two non-empty runs of parts puts one separator between their joins. */
  lemma {:induction false} JoinAppend(a: seq<string>, b: seq<string>, sep: string)
    requires a != [] && b != []
    ensures Join(a + b, sep) == Join(a, sep) + sep + Join(b, sep)
  {
    var ab := a + b;
    var init, last := ab[..|ab| - 1], b[|b| - 1];
    JoinLast(ab, sep);
    assert ab[|ab| - 1] == last;
    if |b| == 1 {
      assert init == a;
    } else {
      var b' := b[..|b| - 1];
      assert init == a + b';
      JoinAppend(a, b', sep);
      JoinLast(b, sep);
      ConcatAssoc(Join(a, sep), sep, Join(b', sep), sep + last);
    }
  }

  lemma JoinLast(parts: seq<string>, sep: string)
    requires |parts| >= 2
    ensures Join(parts, sep) == Join(parts[..|parts| - 1], sep) + sep + parts[|parts| - 1]
  {
  }

  lemma ConcatAssoc(w: string, x: string, y: string, z: string)
    ensures w + x + y + z == w + x + (y + z)
  {
  }

  // ---------------------------------------------------------------------------
  // Sequences

  predicate NoDuplicates<T(==)>(s: seq<T>) {
    forall i, j :: 0 <= i < j < |s| ==> s[i] != s[j]
  }

  /** The first index at which `x` occurs in `s`. */
  function FirstIndex<T(==)>(s: seq<T>, x: T): (k: nat)
    requires x in s
    ensures k < |s| && s[k] == x
    ensures forall i :: 0 <= i < k ==> s[i] != x
  {
    if s[0] == x then 0 else 1 + FirstIndex(s[1..], x)
  }

  /** Keep the first occurrence of every element, in order (`[...new Set(s)]`, or a
      list built with `if (!list.contains(x)) list.add(x)`). */
  function Dedupe<T(==)>(s: seq<T>): (r: seq<T>)
  {
    if s == [] then []
    else
      var d := Dedupe(s[..|s| - 1]);
      if s[|s| - 1] in d then d else d + [s[|s| - 1]]
  }

  lemma {:induction false} DedupeMembership<T>(s: seq<T>)
    ensures forall x :: x in Dedupe(s) <==> x in s
  {
    if s != [] {
      DedupeMembership(s[..|s| - 1]);
      assert s == s[..|s| - 1] + [s[|s| - 1]];
    }
  }

  lemma {:induction false} DedupeNoDuplicates<T>(s: seq<T>)
    ensures NoDuplicates(Dedupe(s))
  {
    if s != [] {
      DedupeNoDuplicates(s[..|s| - 1]);
    }
  }

  lemma DedupeElement<T>(s: seq<T>, i: nat)
    requires i < |Dedupe(s)|
    ensures Dedupe(s)[i] in s
  {
    DedupeMembership(s);
    assert Dedupe(s)[i] in Dedupe(s);
  }

  lemma FirstIndexOfPrefix<T>(s: seq<T>, y: T, x: T)
    requires x in s
    ensures x in s + [y] && FirstIndex(s + [y], x) == FirstIndex(s, x)
  {
    var k := FirstIndex(s, x);
    var k' := FirstIndex(s + [y], x);
    assert (s + [y])[k] == x;
  }

  /** The survivors of `Dedupe` appear in the order of their first occurrence. */
  lemma {:induction false} DedupeFirstOccurrenceOrder<T>(s: seq<T>, i: nat, j: nat)
    requires i < j < |Dedupe(s)|
    ensures Dedupe(s)[i] in s && Dedupe(s)[j] in s
    ensures FirstIndex(s, Dedupe(s)[i]) < FirstIndex(s, Dedupe(s)[j])
  {
    DedupeMembership(s);
    var p := s[..|s| - 1];
    var x := s[|s| - 1];
    assert s == p + [x];
    var d := Dedupe(p);
    DedupeMembership(p);
    if x in d {
      DedupeFirstOccurrenceOrder(p, i, j);
      FirstIndexOfPrefix(p, x, d[i]);
      FirstIndexOfPrefix(p, x, d[j]);
    } else if j < |d| {
      DedupeFirstOccurrenceOrder(p, i, j);
      FirstIndexOfPrefix(p, x, d[i]);
      FirstIndexOfPrefix(p, x, d[j]);
    } else {
      assert Dedupe(s)[j] == x && x !in p;
      assert Dedupe(s)[i] == d[i] && d[i] in d;
      DedupeElement(p, i);
      FirstIndexOfPrefix(p, x, d[i]);
      assert FirstIndex(s, x) == |p|;
    }
  }

  /** The images under `f` of the non-null entries of `s`, in order. */
  function MapPresent<T, U>(s: seq<Option<T>>, f: T -> U): seq<U> {
    if s == [] then []
    else
      var rest := MapPresent(s[..|s| - 1], f);
      match s[|s| - 1]
      case None => rest
      case Some(x) => rest + [f(x)]
  }

  lemma {:induction false} MapPresentMembership<T, U>(s: seq<Option<T>>, f: T -> U)
    ensures forall y :: y in MapPresent(s, f) <==>
      exists i :: 0 <= i < |s| && s[i].Some? && f(s[i].value) == y
  {
    if s != [] {
      var p := s[..|s| - 1];
      MapPresentMembership(p, f);
      forall y ensures y in MapPresent(s, f) <==>
        exists i :: 0 <= i < |s| && s[i].Some? && f(s[i].value) == y
      {
        if y in MapPresent(p, f) {
          var i :| 0 <= i < |p| && p[i].Some? && f(p[i].value) == y;
          assert s[i] == p[i];
        }
        if exists i :: 0 <= i < |s| && s[i].Some? && f(s[i].value) == y {
          var i :| 0 <= i < |s| && s[i].Some? && f(s[i].value) == y;
          if i < |p| {
            assert p[i] == s[i];
          }
        }
      }
    }
  }

  /** `s.filter(keep)`. */
  function Filter<T>(s: seq<T>, keep: T -> bool): (r: seq<T>)
    ensures |r| <= |s|
  {
    if s == [] then []
    else Filter(s[..|s| - 1], keep) + (if keep(s[|s| - 1]) then [s[|s| - 1]] else [])
  }

  lemma {:induction false} FilterMembership<T>(s: seq<T>, keep: T -> bool)
    ensures forall x :: x in Filter(s, keep) <==> x in s && keep(x)
  {
    if s != [] {
      FilterMembership(s[..|s| - 1], keep);
      assert s == s[..|s| - 1] + [s[|s| - 1]];
    }
  }

  lemma {:induction false} FilterPreservesNoDuplicates<T>(s: seq<T>, keep: T -> bool)
    requires NoDuplicates(s)
    ensures NoDuplicates(Filter(s, keep))
  {
    if s != [] {
      var p := s[..|s| - 1];
      assert NoDuplicates(p);
      FilterPreservesNoDuplicates(p, keep);
      FilterMembership(p, keep);
      assert s[|s| - 1] !in p;
    }
  }

  /** Filtering distributes over concatenation, so it keeps the relative order of
      the elements it retains. */
  lemma {:induction false} FilterAppend<T>(a: seq<T>, b: seq<T>, keep: T -> bool)
    ensures Filter(a + b, keep) == Filter(a, keep) + Filter(b, keep)
  {
    if b == [] {
      assert a + b == a;
    } else {
      var b' := b[..|b| - 1];
      FilterAppend(a, b', keep);
      assert (a + b)[..|a + b| - 1] == a + b';
    }
  }

  /** De-duplicating and then filtering by a per-element test keeps exactly what
      filtering first and de-duplicating afterwards keeps, in the same order. */
  lemma {:induction false} FilterDedupeCommute<T>(s: seq<T>, keep: T -> bool)
    ensures Filter(Dedupe(s), keep) == Dedupe(Filter(s, keep))
  {
    if s != [] {
      var p := s[..|s| - 1];
      var x := s[|s| - 1];
      FilterDedupeCommute(p, keep);
      DedupeMembership(p);
      FilterMembership(p, keep);
      var f := Filter(p, keep);
      DedupeMembership(f);
      if x in p {
        assert Dedupe(s) == Dedupe(p);
        if keep(x) {
          assert Filter(s, keep) == f + [x];
          assert (f + [x])[..|f + [x]| - 1] == f;
          assert x in Dedupe(f);
          assert Dedupe(f + [x]) == Dedupe(f);
        } else {
          assert Filter(s, keep) == f;
        }
      } else {
        assert Dedupe(s) == Dedupe(p) + [x];
        FilterAppend(Dedupe(p), [x], keep);
        assert Filter([x], keep) == Filter([x][..0], keep) + (if keep(x) then [x] else []);
        if keep(x) {
          assert Filter(s, keep) == f + [x];
          assert (f + [x])[..|f + [x]| - 1] == f;
          assert x !in Dedupe(f);
          assert Dedupe(f + [x]) == Dedupe(f) + [x];
        } else {
          assert Filter(s, keep) == f;
        }
      }
    }
  }
}
