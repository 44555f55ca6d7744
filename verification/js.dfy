/**
 * The pieces of JavaScript string and number semantics the shop's code
 * relies on: the whitespace set used by `trim`, `\s` and `parseInt`,
 * `split`/`join` on one character, `parseInt`, the `\D` digit filter,
 * `slice(-n)`, `includes`, `startsWith` and the e-mail pattern
 * `^[^\s@]+@[^\s@]+\.[^\s@]+$` used by two API routes.
 *
 * Strings are sequences of Unicode scalar values.
 */
module Js {

  /** `undefined`/`null` versus a present value. */
  datatype Option<+T> = None | Some(value: T) {
    function GetOr(default: T): T {
      match this
      case Some(v) => v
      case None => default
    }
  }

  /** A nullable string is truthy iff it is present and non-empty. */
  predicate TruthyText(o: Option<string>) {
    o.Some? && o.value != ""
  }

  /** `x || null` on a string: empty strings are stored as null. */
  function OrNull(s: string): (r: Option<string>)
    ensures r.None? <==> s == ""
    ensures r.Some? ==> r.value == s
  {
    if s == "" then None else Some(s)
  }

  /** `x || null` on a nullable string. */
  function NullableOrNull(o: Option<string>): (r: Option<string>)
    ensures r.None? <==> !TruthyText(o)
    ensures r.Some? ==> r == o
  {
    if TruthyText(o) then o else None
  }

  // ---------------------------------------------------------------------
  // Whitespace and trimming
  // ---------------------------------------------------------------------

  /**
   * ECMAScript WhiteSpace and LineTerminator code points: the set stripped
   * by `String.prototype.trim`, skipped by `parseInt` and matched by `\s`.
   */
  predicate IsSpace(c: char) {
    || c == '\t' || c == '\n' || c == '\U{000B}' || c == '\U{000C}' || c == '\r'
    || c == ' ' || c == '\U{00A0}' || c == '\U{1680}'
    || ('\U{2000}' <= c <= '\U{200A}')
    || c == '\U{2028}' || c == '\U{2029}' || c == '\U{202F}' || c == '\U{205F}'
    || c == '\U{3000}' || c == '\U{FEFF}'
  }

  predicate AllSpace(s: string) {
    forall i :: 0 <= i < |s| ==> IsSpace(s[i])
  }

  predicate NoSpace(s: string) {
    forall i :: 0 <= i < |s| ==> !IsSpace(s[i])
  }

  /** A string with no leading and no trailing whitespace. */
  predicate IsTrimmed(s: string) {
    s == [] || (!IsSpace(s[0]) && !IsSpace(s[|s| - 1]))
  }

  /** Number of leading whitespace characters. */
  function LeadingSpaces(s: string): (n: nat)
    ensures n <= |s|
    ensures forall j :: 0 <= j < n ==> IsSpace(s[j])
    ensures n < |s| ==> !IsSpace(s[n])
    ensures AllSpace(s[..n])
  {
    var n := SpaceRunFrom(s, 0);
    assert forall j :: 0 <= j < n ==> s[..n][j] == s[j];
    n
  }

  /** The end of the run of whitespace that starts at `j`. */
  function SpaceRunFrom(s: string, j: nat): (n: nat)
    requires j <= |s|
    ensures j <= n <= |s|
    ensures forall m :: j <= m < n ==> IsSpace(s[m])
    ensures n < |s| ==> !IsSpace(s[n])
    decreases |s| - j
  {
    if j < |s| && IsSpace(s[j]) then SpaceRunFrom(s, j + 1) else j
  }

  /** The leading whitespace is the run before the first other character. */
  lemma LeadingSpacesUnique(s: string, n: nat)
    requires n <= |s|
    requires forall j :: 0 <= j < n ==> IsSpace(s[j])
    requires n < |s| ==> !IsSpace(s[n])
    ensures LeadingSpaces(s) == n
  {
  }

  /** Where the trailing whitespace of `t` starts. */
  function ContentEnd(t: string): (e: nat)
    ensures e <= |t|
    ensures forall m :: e <= m < |t| ==> IsSpace(t[m])
    ensures e > 0 ==> !IsSpace(t[e - 1])
  {
    SpaceRunBefore(t, |t|)
  }

  /** The start of the run of whitespace that ends just before `j`, given that `t[j..]` is whitespace. */
  function SpaceRunBefore(t: string, j: nat): (e: nat)
    requires j <= |t|
    requires forall m :: j <= m < |t| ==> IsSpace(t[m])
    ensures e <= j
    ensures forall m :: e <= m < |t| ==> IsSpace(t[m])
    ensures e > 0 ==> !IsSpace(t[e - 1])
  {
    if j > 0 && IsSpace(t[j - 1]) then SpaceRunBefore(t, j - 1) else j
  }

  /** `s.trimStart()`: the text after the leading whitespace. */
  function TrimStart(s: string): (r: string)
    ensures |r| <= |s| && r == s[|s| - |r|..]
    ensures AllSpace(s[..|s| - |r|])
    ensures r == [] || !IsSpace(r[0])
  {
    s[LeadingSpaces(s)..]
  }

  /** Whitespace up to a non-space character at `i` is exactly the leading whitespace. */
  lemma LeadingSpacesAt(s: string, i: nat)
    requires i < |s| && AllSpace(s[..i]) && !IsSpace(s[i])
    ensures LeadingSpaces(s) == i
  {
    assert forall j :: 0 <= j < i ==> s[j] == s[..i][j];
    LeadingSpacesUnique(s, i);
  }

  lemma TrimStartNonSpace(s: string)
    requires |s| > 0 && !IsSpace(s[0])
    ensures TrimStart(s) == s
  {
  }

  /**
   * `s.trim()`: the middle part of `s` left once the leading and the
   * trailing whitespace are cut away; it neither starts nor ends with
   * whitespace and is "" exactly when `s` is all whitespace.
   */
  function Trim(s: string): (r: string)
    ensures IsTrimmed(r)
    ensures LeadingSpaces(s) + |r| <= |s|
    ensures r == s[LeadingSpaces(s)..LeadingSpaces(s) + |r|]
    ensures AllSpace(s[LeadingSpaces(s) + |r|..])
    ensures IsTrimmed(s) ==> r == s
  {
    var i := LeadingSpaces(s);
    var t := s[i..];
    var e := ContentEnd(t);
    TrimmedMiddle(s, i, t, e);
    t[..e]
  }

  lemma TrimmedMiddle(s: string, i: nat, t: string, e: nat)
    requires i <= |s| && t == s[i..] && e <= |t|
    requires i < |s| ==> !IsSpace(s[i])
    requires forall j :: 0 <= j < i ==> IsSpace(s[j])
    requires forall m :: e <= m < |t| ==> IsSpace(t[m])
    requires e > 0 ==> !IsSpace(t[e - 1])
    ensures IsTrimmed(t[..e])
    ensures t[..e] == s[i..i + e]
    ensures AllSpace(s[i + e..])
    ensures IsTrimmed(s) ==> t[..e] == s
  {
    assert s[i + e..] == t[e..];
    if |t[..e]| > 0 {
      assert t[..e][0] == s[i];
    }
    if IsTrimmed(s) && |s| > 0 {
      assert i == 0;
      assert t[|t| - 1] == s[|s| - 1];
      assert e == |t|;
    }
  }

  /** Leading whitespace does not change the trimmed text. */
  lemma TrimLeadingSpace(c: char, s: string)
    requires IsSpace(c)
    ensures Trim([c] + s) == Trim(s)
  {
    var cs := [c] + s;
    var n := 1 + LeadingSpaces(s);
    assert forall j :: 1 <= j < |cs| ==> cs[j] == s[j - 1];
    LeadingSpacesUnique(cs, n);
    assert cs[n..] == s[n - 1..];
  }

  /** A string that is already trimmed and prefixed by one space trims back to itself. */
  lemma TrimSpacePrefixed(s: string)
    requires IsTrimmed(s)
    ensures Trim(" " + s) == s
  {
    TrimLeadingSpace(' ', s);
  }

  // ---------------------------------------------------------------------
  // Character filters and simple searches
  // ---------------------------------------------------------------------

  predicate IsDigit(c: char) {
    '0' <= c <= '9'
  }

  predicate AllDigits(s: string) {
    forall i :: 0 <= i < |s| ==> IsDigit(s[i])
  }

  /** `s.replace(/\D/g, "")`: the ASCII digits of `s`, in order. */
  function Digits(s: string): (r: string)
    ensures AllDigits(r)
    ensures |r| <= |s|
    ensures AllDigits(s) ==> r == s
  {
    if |s| == 0 then ""
    else if IsDigit(s[0]) then [s[0]] + Digits(s[1..])
    else Digits(s[1..])
  }

  lemma {:induction false} DigitsAppend(a: string, b: string)
    ensures Digits(a + b) == Digits(a) + Digits(b)
  {
    if |a| == 0 {
      assert a + b == b;
    } else {
      assert (a + b)[1..] == a[1..] + b;
      DigitsAppend(a[1..], b);
    }
  }

  /** `s.replace(/[chars]/g, "")`: `s` without any character from `chars`. */
  function RemoveChars(s: string, chars: set<char>): (r: string)
    ensures |r| <= |s|
    ensures forall i :: 0 <= i < |r| ==> r[i] !in chars
    ensures (forall i :: 0 <= i < |s| ==> s[i] !in chars) ==> r == s
  {
    if |s| == 0 then ""
    else if s[0] in chars then RemoveChars(s[1..], chars)
    else [s[0]] + RemoveChars(s[1..], chars)
  }

  /** `s.slice(-n)`: the last `n` characters, or all of `s` when it is shorter. */
  function Last(s: string, n: nat): (r: string)
    ensures |r| == if |s| < n then |s| else n
    ensures r == s[|s| - |r|..]
    ensures AllDigits(s) ==> AllDigits(r)
  {
    if |s| <= n then s else s[|s| - n..]
  }

  /** `s.startsWith(p)`. */
  predicate StartsWith(s: string, p: string) {
    |p| <= |s| && s[..|p|] == p
  }

  /** `s.includes(sub)`. */
  predicate Contains(s: string, sub: string) {
    exists i | 0 <= i <= |s| :: StartsWith(s[i..], sub)
  }

  /** ASCII upper-case letters mapped to lower case; everything else kept. */
  function LowerChar(c: char): char {
    if 'A' <= c <= 'Z' then (c as int + 32) as char else c
  }

  /** `s.toLowerCase()` restricted to ASCII letters. */
  function Lower(s: string): (r: string)
    ensures |r| == |s|
    ensures forall i :: 0 <= i < |s| ==> r[i] == LowerChar(s[i])
  {
    seq(|s|, i requires 0 <= i < |s| => LowerChar(s[i]))
  }

  lemma LowerIdempotent(s: string)
    ensures Lower(Lower(s)) == Lower(s)
  {
  }

  /** The list in the opposite order: the newest-first listing of a store kept in creation order. */
  function Reverse<T>(s: seq<T>): (r: seq<T>)
    ensures |r| == |s|
    ensures forall i :: 0 <= i < |s| ==> r[i] == s[|s| - 1 - i]
  {
    if |s| == 0 then [] else Reverse(s[1..]) + [s[0]]
  }

  lemma ReverseSameElements<T>(s: seq<T>)
    ensures forall x :: x in Reverse(s) <==> x in s
  {
    var r := Reverse(s);
    forall x | x in s ensures x in r {
      var i :| 0 <= i < |s| && s[i] == x;
      assert r[|s| - 1 - i] == x;
    }
  }

  // ---------------------------------------------------------------------
  // split / join on one separator character
  // ---------------------------------------------------------------------

  /** `s.split(sep)` for a one-character separator (`"".split(",")` is `[""]`). */
  function Split(s: string, sep: char): (parts: seq<string>)
    ensures |parts| >= 1
    ensures forall i :: 0 <= i < |parts| ==> sep !in parts[i]
  {
    if |s| == 0 then [""]
    else
      var rest := Split(s[1..], sep);
      if s[0] == sep then [""] + rest
      else [[s[0]] + rest[0]] + rest[1..]
  }

  /** `s.split(sep)[0]`: the text before the first separator, or all of `s` when there is none. */
  lemma {:induction false} SplitHead(s: string, sep: char)
    ensures |Split(s, sep)[0]| <= |s|
    ensures Split(s, sep)[0] == s[..|Split(s, sep)[0]|]
    ensures |Split(s, sep)[0]| < |s| ==> s[|Split(s, sep)[0]|] == sep
  {
    if |s| > 0 {
      SplitHead(s[1..], sep);
    }
  }

  /** `parts.join(sep)`. */
  function Join(parts: seq<string>, sep: string): string {
    if |parts| == 0 then ""
    else if |parts| == 1 then parts[0]
    else parts[0] + sep + Join(parts[1..], sep)
  }

  /** Splitting `a + [sep] + b` with `sep` not in `a` peels `a` off first. */
  lemma {:induction false} SplitAfterSeparator(a: string, sep: char, b: string)
    requires sep !in a
    ensures Split(a + [sep] + b, sep) == [a] + Split(b, sep)
  {
    var s := a + [sep] + b;
    if |a| == 0 {
      assert s == [sep] + b;
      assert s[1..] == b;
    } else {
      assert s[1..] == a[1..] + [sep] + b;
      SplitAfterSeparator(a[1..], sep, b);
      assert [a[0]] + a[1..] == a;
    }
  }

  /** A string without the separator splits into itself. */
  lemma {:induction false} SplitNoSeparator(a: string, sep: char)
    requires sep !in a
    ensures Split(a, sep) == [a]
  {
    if |a| > 0 {
      SplitNoSeparator(a[1..], sep);
      assert [a[0]] + a[1..] == a;
    }
  }

  /** split undoes join when no part holds the separator. */
  lemma {:induction false} SplitJoin(parts: seq<string>, sep: char)
    requires |parts| >= 1
    requires forall i :: 0 <= i < |parts| ==> sep !in parts[i]
    ensures Split(Join(parts, [sep]), sep) == parts
  {
    if |parts| == 1 {
      SplitNoSeparator(parts[0], sep);
    } else {
      SplitJoin(parts[1..], sep);
      SplitAfterSeparator(parts[0], sep, Join(parts[1..], [sep]));
      assert [parts[0]] + parts[1..] == parts;
    }
  }

  // ---------------------------------------------------------------------
  // The comma-separated and newline-separated list fields of the forms
  // ---------------------------------------------------------------------

  function TrimEach(parts: seq<string>): (r: seq<string>)
    ensures |r| == |parts|
    ensures forall i :: 0 <= i < |r| ==> r[i] == Trim(parts[i])
  {
    if |parts| == 0 then [] else [Trim(parts[0])] + TrimEach(parts[1..])
  }

  /** `.filter(Boolean)` on strings: drop the empty ones, keep the order. */
  function DropEmpty(parts: seq<string>): (r: seq<string>)
    ensures |r| <= |parts|
    ensures forall i :: 0 <= i < |r| ==> r[i] != "" && r[i] in parts
    ensures forall x :: x in parts && x != "" ==> x in r
    ensures (forall i :: 0 <= i < |parts| ==> parts[i] != "") ==> r == parts
  {
    if |parts| == 0 then []
    else if parts[0] == "" then DropEmpty(parts[1..])
    else [parts[0]] + DropEmpty(parts[1..])
  }

  /**
   * `text ? text.split(",").map(s => s.trim()).filter(Boolean) : []`, the
   * parsing of specialties, badges and image lists.
   */
  function ParseCommaList(text: string): (r: seq<string>)
    ensures forall i :: 0 <= i < |r| ==> r[i] != "" && IsTrimmed(r[i]) && ',' !in r[i]
  {
    if text == "" then []
    else
      var parts := Split(text, ',');
      var trimmed := TrimEach(parts);
      forall i | 0 <= i < |trimmed| ensures ',' !in trimmed[i] {
        TrimIsInfix(parts[i]);
      }
      DropEmpty(trimmed)
  }

  /** The trimmed string is drawn from the characters of the original. */
  lemma TrimIsInfix(s: string)
    ensures forall c :: c in Trim(s) ==> c in s
  {
    var r := Trim(s);
    var i := LeadingSpaces(s);
    forall c | c in r ensures c in s {
      var k :| 0 <= k < |r| && r[k] == c;
      assert s[i + k] == c;
    }
  }

  /**
   * `text ? text.split("\n").filter(Boolean) : []`, the parsing of the
   * product feature list: lines are not trimmed.
   */
  function ParseLines(text: string): (r: seq<string>)
    ensures forall i :: 0 <= i < |r| ==> r[i] != "" && '\n' !in r[i]
    ensures forall x :: x in r <==> x in Split(text, '\n') && x != ""
  {
    if text == "" then [] else DropEmpty(Split(text, '\n'))
  }

  /** Lines written one per row with `join("\n")` parse back to the same list. */
  lemma LinesRoundTrip(xs: seq<string>)
    requires forall i :: 0 <= i < |xs| ==> xs[i] != "" && '\n' !in xs[i]
    ensures ParseLines(Join(xs, "\n")) == xs
  {
    if |xs| > 0 {
      assert |Join(xs, "\n")| >= |xs[0]|;
      assert "\n" == ['\n'];
      SplitJoin(xs, '\n');
    }
  }

  /** A list whose entries can survive `join(", ")` followed by ParseCommaList. */
  predicate CleanListEntries(xs: seq<string>) {
    forall i :: 0 <= i < |xs| ==> xs[i] != "" && IsTrimmed(xs[i]) && ',' !in xs[i]
  }

  /** Every part after the first gains the space of the ", " joiner. */
  function SpacePrefixTail(xs: seq<string>): (r: seq<string>)
    requires |xs| >= 1
    ensures |r| == |xs| && r[0] == xs[0]
    ensures forall i :: 1 <= i < |xs| ==> r[i] == " " + xs[i]
  {
    [xs[0]] + seq(|xs| - 1, i requires 0 <= i < |xs| - 1 => " " + xs[i + 1])
  }

  lemma {:induction false} JoinCommaSpace(xs: seq<string>)
    requires |xs| >= 1
    ensures Join(xs, ", ") == Join(SpacePrefixTail(xs), [','])
  {
    if |xs| >= 2 {
      var ys := SpacePrefixTail(xs);
      JoinCommaSpace(xs[1..]);
      var zs := SpacePrefixTail(xs[1..]);
      assert Join(ys, [',']) == ys[0] + [','] + Join(ys[1..], [',']);
      // ys[1..] is zs with one more space in front of its first entry
      assert Join(ys[1..], [',']) == " " + Join(zs, [',']) by {
        JoinPrefixFirst(zs, " ");
        assert ys[1..] == [" " + zs[0]] + zs[1..];
      }
    }
  }

  lemma {:induction false} JoinPrefixFirst(zs: seq<string>, p: string)
    requires |zs| >= 1
    ensures Join([p + zs[0]] + zs[1..], [',']) == p + Join(zs, [','])
  {
    var ws := [p + zs[0]] + zs[1..];
    if |zs| >= 2 {
      assert ws[1..] == zs[1..];
      var j := Join(zs[1..], [',']);
      assert Join(ws, [',']) == (p + zs[0]) + [','] + j;
      assert Join(zs, [',']) == zs[0] + [','] + j;
      assert (p + zs[0]) + [','] + j == p + (zs[0] + [','] + j);
    }
  }

  /**
   * The edit form shows a specialties list as `list.join(", ")`; parsing that
   * text back gives the same list when the entries are non-empty, carry no
   * surrounding whitespace and contain no comma.
   */
  lemma {:induction false} SpecialtiesRoundTrip(xs: seq<string>)
    requires CleanListEntries(xs)
    ensures ParseCommaList(Join(xs, ", ")) == xs
  {
    if |xs| > 0 {
      var ys := SpacePrefixTail(xs);
      JoinCommaSpace(xs);
      JoinKeepsFirst(xs, ", ");
      PrefixedHaveNoComma(xs);
      SplitJoin(ys, ',');
      TrimPrefixed(xs);
    }
  }

  lemma JoinKeepsFirst(xs: seq<string>, sep: string)
    requires |xs| >= 1
    ensures |Join(xs, sep)| >= |xs[0]|
  {
  }

  lemma PrefixedHaveNoComma(xs: seq<string>)
    requires |xs| >= 1 && CleanListEntries(xs)
    ensures forall i :: 0 <= i < |xs| ==> ',' !in SpacePrefixTail(xs)[i]
  {
    var ys := SpacePrefixTail(xs);
    forall i | 0 <= i < |ys| ensures ',' !in ys[i] {
      if i > 0 { assert ys[i] == " " + xs[i]; }
    }
  }

  lemma TrimPrefixed(xs: seq<string>)
    requires |xs| >= 1 && CleanListEntries(xs)
    ensures TrimEach(SpacePrefixTail(xs)) == xs
  {
    var ys := SpacePrefixTail(xs);
    var t := TrimEach(ys);
    forall i | 0 <= i < |ys| ensures t[i] == xs[i] {
      if i > 0 { TrimSpacePrefixed(xs[i]); }
    }
  }

  // ---------------------------------------------------------------------
  // parseInt
  // ---------------------------------------------------------------------

  /** The value of `c` as a digit in base `radix` (10 or 16), if it is one. */
  function DigitValue(c: char, radix: nat): Option<nat>
    requires radix == 10 || radix == 16
  {
    if '0' <= c <= '9' then Some(c as int - '0' as int)
    else if radix == 16 && 'a' <= c <= 'f' then Some(c as int - 'a' as int + 10)
    else if radix == 16 && 'A' <= c <= 'F' then Some(c as int - 'A' as int + 10)
    else None
  }

  /** Length of the longest prefix of `s` made of digits in `radix`. */
  function DigitPrefix(s: string, radix: nat): (n: nat)
    requires radix == 10 || radix == 16
    ensures n <= |s|
    ensures forall i :: 0 <= i < n ==> DigitValue(s[i], radix).Some?
    ensures n < |s| ==> DigitValue(s[n], radix).None?
  {
    if |s| == 0 || DigitValue(s[0], radix).None? then 0
    else 1 + DigitPrefix(s[1..], radix)
  }

  /** The number written by a string of digits, most significant first. */
  function DigitsValue(ds: string, radix: nat): (v: nat)
    requires radix == 10 || radix == 16
    requires forall i :: 0 <= i < |ds| ==> DigitValue(ds[i], radix).Some?
  {
    if |ds| == 0 then 0
    else DigitsValue(ds[..|ds| - 1], radix) * radix + DigitValue(ds[|ds| - 1], radix).value
  }

  /**
   * `parseInt(s, 10)` when `allowHex` is false, `parseInt(s)` when it is
   * true: skip leading whitespace, read an optional sign, (for `parseInt(s)`)
   * switch to base 16 after a `0x`/`0X` prefix, then read the longest run of
   * digits. `None` stands for NaN (no digit at all).
   */
  function ParseInt(s: string, allowHex: bool): (r: Option<int>)
    ensures !allowHex && r.None? ==> !StartsWithDigitAfterSpace(s)
    ensures !allowHex && StartsWithDigitAfterSpace(s) ==> r.Some? && r.value >= 0
  {
    var t := TrimStart(s);
    assert !allowHex && StartsWithDigitAfterSpace(s) ==> |t| > 0 && IsDigit(t[0]) by {
      if !allowHex && StartsWithDigitAfterSpace(s) { DigitAfterSpaceParses(s); }
    }
    ParseSigned(t, allowHex)
  }

  /** The sign step of `parseInt`, on the text after the leading whitespace. */
  function ParseSigned(t: string, allowHex: bool): (r: Option<int>)
    ensures !allowHex && |t| > 0 && IsDigit(t[0]) ==> r == ParseUnsigned(t, false) && r.Some?
  {
    if |t| > 0 && t[0] == '-' then
      match ParseUnsigned(t[1..], allowHex)
      case None => None
      case Some(m) => Some(-m)
    else if |t| > 0 && t[0] == '+' then ParseUnsigned(t[1..], allowHex)
    else ParseUnsigned(t, allowHex)
  }

  /** The digit step of `parseInt`: an optional `0x` (when allowed) and the longest digit run. */
  function ParseUnsigned(u: string, allowHex: bool): (r: Option<int>)
    ensures r.Some? ==> r.value >= 0
    ensures !allowHex && |u| > 0 && IsDigit(u[0]) ==> r.Some?
  {
    var hex := HexPrefixed(u, allowHex);
    var radix := if hex then 16 else 10;
    var v := if hex then u[2..] else u;
    var n := DigitPrefix(v, radix);
    if n == 0 then None else Some(DigitsValue(v[..n], radix) as int)
  }

  predicate HexPrefixed(u: string, allowHex: bool) {
    allowHex && |u| >= 2 && u[0] == '0' && (u[1] == 'x' || u[1] == 'X')
  }

  /** `s` shows a decimal digit right after its leading whitespace. */
  predicate StartsWithDigitAfterSpace(s: string) {
    exists i | 0 <= i < |s| :: IsDigit(s[i]) && AllSpace(s[..i])
  }

  /** A digit right after the leading whitespace is where the digit run starts. */
  lemma DigitAfterSpaceParses(s: string)
    requires StartsWithDigitAfterSpace(s)
    ensures |TrimStart(s)| > 0 && IsDigit(TrimStart(s)[0])
  {
    var i :| 0 <= i < |s| && IsDigit(s[i]) && AllSpace(s[..i]);
    LeadingSpacesAt(s, i);
  }

  /** After the leading whitespace comes a digit, or one '+' or '-' and then a digit. */
  predicate NumberAfterSpace(s: string) {
    var t := TrimStart(s);
    (|t| > 0 && IsDigit(t[0])) || (|t| > 1 && (t[0] == '-' || t[0] == '+') && IsDigit(t[1]))
  }

  lemma UnsignedDefined(u: string)
    ensures ParseUnsigned(u, false).Some? <==> |u| > 0 && IsDigit(u[0])
  {
  }

  /**
   * Base-10 `parseInt` gives a number exactly when a digit follows the
   * leading whitespace and at most one sign; everything else is NaN.
   */
  lemma ParseIntDefined(s: string)
    ensures ParseInt(s, false).Some? <==> NumberAfterSpace(s)
  {
    var t := TrimStart(s);
    UnsignedDefined(t);
    if |t| > 0 {
      UnsignedDefined(t[1..]);
    }
  }

  /** `parseInt(s, 10) || 0`: NaN and 0 both become 0. */
  function IntOrZero(s: string): (r: int)
    ensures ParseInt(s, false).None? ==> r == 0
    ensures ParseInt(s, false).Some? ==> r == ParseInt(s, false).value
  {
    match ParseInt(s, false)
    case None => 0
    case Some(n) => n
  }

  /** A plain run of decimal digits parses to the number it writes, with or without the hex prefix rule. */
  lemma {:induction false} ParseIntOfDigits(s: string, allowHex: bool)
    requires |s| > 0 && AllDigits(s)
    ensures ParseInt(s, allowHex) == Some(DigitsValue(s, 10) as int)
  {
    TrimStartNonSpace(s);
    ParseOfTrimmed(s, allowHex);
    ParseUnsignedOfDigits(s, allowHex);
  }

  /** "0" parses to 0 under either rule, so `parseInt("0", 10) || 0` is 0 as well. */
  lemma ParseIntZero(allowHex: bool)
    ensures ParseInt("0", allowHex) == Some(0)
    ensures IntOrZero("0") == 0
  {
    assert DigitValue('0', 10) == Some(0);
    assert DigitsValue("0", 10) == 0 by {
      assert "0"[..0] == "";
    }
    ParseIntOfDigits("0", allowHex);
    ParseIntOfDigits("0", false);
  }

  lemma {:induction false} ParseUnsignedOfDigits(s: string, allowHex: bool)
    requires |s| > 0 && AllDigits(s)
    ensures ParseUnsigned(s, allowHex) == Some(DigitsValue(s, 10) as int)
  {
    assert !HexPrefixed(s, allowHex) by { if |s| >= 2 { assert IsDigit(s[1]); } }
    AllDigitsPrefix(s);
    assert s[..|s|] == s;
  }

  lemma {:induction false} AllDigitsPrefix(s: string)
    requires AllDigits(s)
    ensures DigitPrefix(s, 10) == |s|
  {
    if |s| > 0 {
      AllDigitsPrefix(s[1..]);
    }
  }

  /** `String(n)` for a natural number: its decimal digits, no leading zeros. */
  function NatToDecimal(n: nat): (r: string)
    ensures |r| > 0 && AllDigits(r)
    ensures forall i :: 0 <= i < |r| ==> DigitValue(r[i], 10).Some?
    ensures DigitsValue(r, 10) == n
    ensures n > 0 ==> r[0] != '0'
  {
    var d := [('0' as int + n % 10) as char];
    if n < 10 then d
    else
      var r := NatToDecimal(n / 10) + d;
      assert r[..|r| - 1] == NatToDecimal(n / 10);
      r
  }

  /** `parseInt(String(n), 10)` gives `n` back. */
  lemma {:induction false} ParseNatToDecimal(n: nat)
    ensures ParseInt(NatToDecimal(n), false) == Some(n)
  {
    ParseIntOfDigits(NatToDecimal(n), false);
  }

  /** `String(n)` for an integer: a '-' in front of negative values. */
  function IntToDecimal(n: int): (r: string)
    ensures ParseInt(r, false) == Some(n)
  {
    if n >= 0 then ParseNatToDecimal(n); NatToDecimal(n)
    else
      var t := NatToDecimal(-n);
      UnsignedNatToDecimal(-n);
      ParseNegated(t);
      "-" + t
  }

  lemma {:induction false} UnsignedNatToDecimal(n: nat)
    ensures ParseUnsigned(NatToDecimal(n), false) == Some(n)
  {
    ParseUnsignedOfDigits(NatToDecimal(n), false);
  }

  /** A '-' in front of an unsigned number negates what it parses to. */
  lemma ParseNegated(t: string)
    requires ParseUnsigned(t, false).Some?
    ensures ParseInt("-" + t, false) == Some(-ParseUnsigned(t, false).value)
  {
    var r := "-" + t;
    TrimStartNonSpace(r);
    ParseOfTrimmed(r, false);
    SignedNegated(t);
  }

  lemma ParseOfTrimmed(r: string, allowHex: bool)
    requires TrimStart(r) == r
    ensures ParseInt(r, allowHex) == ParseSigned(r, allowHex)
  {
  }

  lemma SignedNegated(t: string)
    ensures ParseUnsigned(t, false).Some? ==> ParseSigned("-" + t, false) == Some(-ParseUnsigned(t, false).value)
  {
    assert ("-" + t)[1..] == t;
  }

  // ---------------------------------------------------------------------
  // The e-mail pattern ^[^\s@]+@[^\s@]+\.[^\s@]+$
  // ---------------------------------------------------------------------

  /**
   * The pattern matches exactly the strings without whitespace that hold one
   * '@' preceded by at least one character and followed by some text, a '.',
   * and at least one more character.
   */
  predicate MatchesEmailPattern(s: string) {
    && NoSpace(s)
    && exists at, dot | 0 < at && at + 1 < dot < |s| - 1 ::
         && s[at] == '@' && s[dot] == '.'
         && (forall k | 0 <= k < |s| && k != at :: s[k] != '@')
  }

  /**
   * An address built as `local@host.tld` from non-empty parts without
   * whitespace or '@' matches the pattern.
   */
  lemma EmailPatternOfParts(local: string, host: string, tld: string)
    requires local != "" && host != "" && tld != ""
    requires NoSpace(local) && NoSpace(host) && NoSpace(tld)
    requires '@' !in local && '@' !in host && '@' !in tld
    ensures MatchesEmailPattern(local + "@" + host + "." + tld)
  {
    var s := local + "@" + host + "." + tld;
    var at, dot := |local|, |local| + 1 + |host|;
    forall k | 0 <= k < |s| ensures !IsSpace(s[k]) && (k != at ==> s[k] != '@') {
      if k < at {
        assert s[k] == local[k];
      } else if at < k < dot {
        assert s[k] == host[k - at - 1];
      } else if k > dot {
        assert s[k] == tld[k - dot - 1];
      }
    }
    assert s[at] == '@' && s[dot] == '.';
  }

  /** Example only: a few addresses the pattern accepts and rejects. */
  lemma EmailPatternExamples()
    ensures MatchesEmailPattern("a@b.c")
    ensures !MatchesEmailPattern("a@b")
    ensures !MatchesEmailPattern("@b.c")
    ensures !MatchesEmailPattern("a@@b.c")
    ensures !MatchesEmailPattern("a b@c.d")
  {
    var s := "a@b.c";
    assert s[1] == '@' && s[3] == '.';
    var t := "a b@c.d";
    assert IsSpace(t[1]);
    var u := "a@@b.c";
    assert u[1] == '@' && u[2] == '@';
  }
}
