/** The string operations of JavaScript and PHP that the modelled code relies on:
    writing an integer in decimal (`String(n)`, template literals), `parseInt(s, 10)`,
    PHP's `intval`, `split` / `explode` on one character, `replace` with a string
    pattern, and the order used by the default `Array.prototype.sort`. */
module Strings {
  import opened Wrappers

  // ---------------------------------------------------------------------------
  // Decimal digits

  predicate IsDigit(c: char) { '0' <= c <= '9' }

  predicate AllDigits(s: string) { forall i :: 0 <= i < |s| ==> IsDigit(s[i]) }

  function DigitValue(c: char): nat
    requires IsDigit(c)
  {
    c as int - '0' as int
  }

  function DigitChar(d: nat): (c: char)
    requires d < 10
    ensures IsDigit(c) && DigitValue(c) == d
  {
    ('0' as int + d) as char
  }

  /** The value of a string of decimal digits (most significant first). */
  function DigitsValue(s: string): nat
    requires AllDigits(s)
  {
    if s == [] then 0 else DigitsValue(s[..|s| - 1]) * 10 + DigitValue(s[|s| - 1])
  }

  /** `String(n)` for a non-negative integer: its decimal digits, without leading zeros. */
  function NatToString(n: nat): (s: string)
    ensures |s| > 0 && AllDigits(s)
    ensures s[0] == '0' <==> n == 0
    ensures |s| == 1 <==> n < 10
  {
    if n < 10 then [DigitChar(n)] else NatToString(n / 10) + [DigitChar(n % 10)]
  }

  lemma {:induction false} NatToStringValue(n: nat)
    ensures DigitsValue(NatToString(n)) == n
  {
    if n >= 10 {
      var s := NatToString(n);
      assert s[..|s| - 1] == NatToString(n / 10);
      NatToStringValue(n / 10);
    }
  }

  /** `String(i)` for an integer: a minus sign for a negative value, then the digits. */
  function IntToString(i: int): (s: string)
    ensures |s| > 0 && (s[0] == '-' <==> i < 0)
    ensures i >= 0 ==> AllDigits(s)
    ensures i < 0 ==> AllDigits(s[1..])
  {
    if i < 0 then "-" + NatToString(-i) else NatToString(i)
  }

  lemma NatToStringInjective(a: nat, b: nat)
    requires NatToString(a) == NatToString(b)
    ensures a == b
  {
    NatToStringValue(a);
    NatToStringValue(b);
  }

  /** Distinct integers are written differently. */
  lemma IntToStringInjective(a: int, b: int)
    requires IntToString(a) == IntToString(b)
    ensures a == b
  {
    if a < 0 {
      assert b < 0;
      var s := IntToString(a);
      assert s[1..] == NatToString(-a);
      assert s[1..] == NatToString(-b);
      NatToStringInjective(-a, -b);
    } else {
      assert b >= 0;
      NatToStringInjective(a, b);
    }
  }

  // ---------------------------------------------------------------------------
  // Reading integers back: JavaScript parseInt and PHP intval

  /** The characters `parseInt` skips before a number: ECMAScript WhiteSpace and LineTerminator. */
  predicate IsJsSpace(c: char)
  {
    c == '\t' || c == '\n' || c == '\U{B}' || c == '\U{C}' || c == '\r' || c == ' '
    || c == '\U{A0}' || c == '\U{1680}' || ('\U{2000}' <= c <= '\U{200A}')
    || c == '\U{2028}' || c == '\U{2029}' || c == '\U{202F}' || c == '\U{205F}'
    || c == '\U{3000}' || c == '\U{FEFF}'
  }

  /** The characters C's `isspace` accepts, which PHP's integer conversion skips. */
  predicate IsPhpSpace(c: char)
  {
    c == ' ' || c == '\t' || c == '\n' || c == '\r' || c == '\U{B}' || c == '\U{C}'
  }

  /** JavaScript's white space, or PHP's. */
  datatype SpaceRule = JsSpace | PhpSpace

  predicate IsSpace(rule: SpaceRule, c: char)
  {
    match rule
    case JsSpace => IsJsSpace(c)
    case PhpSpace => IsPhpSpace(c)
  }

  function TrimStart(rule: SpaceRule, s: string): (t: string)
    ensures |t| <= |s| && t == s[|s| - |t|..]
    ensures t == [] || !IsSpace(rule, t[0])
  {
    if s != [] && IsSpace(rule, s[0]) then TrimStart(rule, s[1..]) else s
  }

  /** The longest prefix of decimal digits. */
  function DigitPrefix(s: string): (d: string)
    ensures AllDigits(d) && d <= s
    ensures |d| < |s| ==> !IsDigit(s[|d|])
  {
    if s != [] && IsDigit(s[0]) then [s[0]] + DigitPrefix(s[1..]) else []
  }

  lemma {:induction false} DigitPrefixOfDigits(s: string, rest: string)
    requires AllDigits(s)
    requires rest == [] || !IsDigit(rest[0])
    ensures DigitPrefix(s + rest) == s
  {
    if s != [] {
      assert (s + rest)[1..] == s[1..] + rest;
      DigitPrefixOfDigits(s[1..], rest);
    }
  }

  /** An optional sign and then decimal digits at the start of `t`; `None` when no digit follows. */
  function LeadingInteger(t: string): Option<int>
  {
    var signed := t != [] && (t[0] == '-' || t[0] == '+');
    var digits := DigitPrefix(if signed then t[1..] else t);
    var magnitude: int := DigitsValue(digits);
    if digits == [] then None
    else if signed && t[0] == '-' then Some(-magnitude)
    else Some(magnitude)
  }

  /** `parseInt(s, 10)`; `None` stands for `NaN`. */
  function ParseInt(s: string): Option<int>
  {
    LeadingInteger(TrimStart(JsSpace, s))
  }

  /** PHP's `intval($s)` for a string: a string that does not start with a number gives 0. */
  function PhpIntval(s: string): int
  {
    match LeadingInteger(TrimStart(PhpSpace, s))
    case None => 0
    case Some(n) => n
  }

  /** `intval(strval($i)) === $i` for every integer `$i`. */
  lemma PhpIntvalOfIntToString(i: int)
    ensures PhpIntval(IntToString(i)) == i
  {
    var s := IntToString(i);
    IntToStringUntrimmed(i, PhpSpace);
    LeadingIntegerOfWholeText(i, s);
  }

  /** An integer's text starts with a sign or a digit, so no white space is
      trimmed from it. */
  lemma IntToStringUntrimmed(i: int, rule: SpaceRule)
    ensures TrimStart(rule, IntToString(i)) == IntToString(i)
  {
    var s := IntToString(i);
    assert s[0] == '-' || IsDigit(s[0]);
    NotSpace(rule, s[0]);
  }

  lemma NotSpace(rule: SpaceRule, c: char)
    requires c == '-' || IsDigit(c)
    ensures !IsSpace(rule, c)
  {
  }

  lemma LeadingIntegerOfWholeText(i: int, s: string)
    requires s == IntToString(i)
    ensures LeadingInteger(s) == Some(i)
  {
    LeadingIntegerOfIntToString(i, []);
    assert s + [] == s;
  }

  lemma LeadingIntegerOfDigits(d: string, rest: string)
    requires d != [] && AllDigits(d)
    requires rest == [] || !IsDigit(rest[0])
    ensures LeadingInteger(d + rest) == Some(DigitsValue(d))
  {
    var t := d + rest;
    assert t[0] == d[0];
    DigitPrefixOfDigits(d, rest);
  }

  lemma LeadingIntegerOfNegative(d: string, rest: string)
    requires d != [] && AllDigits(d)
    requires rest == [] || !IsDigit(rest[0])
    ensures LeadingInteger("-" + d + rest) == Some(-(DigitsValue(d) as int))
  {
    var t := "-" + d + rest;
    assert t[0] == '-';
    assert t[1..] == d + rest;
    DigitPrefixOfDigits(d, rest);
    LeadingIntegerOfSigned(t, d);
  }

  lemma LeadingIntegerOfSigned(t: string, d: string)
    requires t != [] && t[0] == '-' && d != [] && DigitPrefix(t[1..]) == d
    ensures LeadingInteger(t) == Some(-(DigitsValue(d) as int))
  {
  }

  lemma LeadingIntegerOfNegativeValue(d: string, n: nat, rest: string)
    requires d != [] && AllDigits(d) && DigitsValue(d) == n
    requires rest == [] || !IsDigit(rest[0])
    ensures LeadingInteger("-" + d + rest) == Some(-(n as int))
  {
    LeadingIntegerOfNegative(d, rest);
  }

  lemma LeadingIntegerOfDigitsValue(d: string, n: nat, rest: string)
    requires d != [] && AllDigits(d) && DigitsValue(d) == n
    requires rest == [] || !IsDigit(rest[0])
    ensures LeadingInteger(d + rest) == Some(n)
  {
    LeadingIntegerOfDigits(d, rest);
  }

  /** The number at the start of an integer's decimal text is that integer, whatever
      non-digit text follows it. */
  lemma LeadingIntegerOfIntToString(i: int, rest: string)
    requires rest == [] || !IsDigit(rest[0])
    ensures LeadingInteger(IntToString(i) + rest) == Some(i)
  {
    if i < 0 {
      var n: nat := -i;
      var d := NatToString(n);
      NatToStringValue(n);
      LeadingIntegerOfNegativeValue(d, n, rest);
      assert IntToString(i) + rest == "-" + d + rest;
    } else {
      var d := NatToString(i);
      NatToStringValue(i);
      LeadingIntegerOfDigitsValue(d, i, rest);
      assert IntToString(i) + rest == d + rest;
    }
  }

  /** `parseInt(String(i), 10) === i` for every integer `i`. */
  lemma ParseIntOfIntToString(i: int)
    ensures ParseInt(IntToString(i)) == Some(i)
  {
    var s := IntToString(i);
    IntToStringUntrimmed(i, JsSpace);
    LeadingIntegerOfWholeText(i, s);
  }

  /** `parseInt` of a string of digits is its decimal value. */
  lemma ParseIntOfDigits(d: string)
    requires d != [] && AllDigits(d)
    ensures ParseInt(d) == Some(DigitsValue(d))
  {
    assert !IsJsSpace(d[0]);
    assert TrimStart(JsSpace, d) == d;
    LeadingIntegerOfDigits(d, []);
    assert d + [] == d;
  }

  // ---------------------------------------------------------------------------
  // split / explode on one character, and its inverse join

  function IndexOf(s: string, c: char): (i: nat)
    requires c in s
    ensures i < |s| && s[i] == c && c !in s[..i]
  {
    if s[0] == c then 0
    else
      var j := IndexOf(s[1..], c);
      assert s[..j + 1] == [s[0]] + s[1..][..j];
      j + 1
  }

  lemma {:induction false} IndexOfIs(s: string, c: char, i: nat)
    requires i < |s| && s[i] == c && c !in s[..i]
    ensures IndexOf(s, c) == i
  {
  }

  /** `s.split(sep)` in JavaScript and `explode(sep, s)` in PHP, for a one-character separator. */
  function Split(s: string, sep: char): (parts: seq<string>)
    ensures |parts| > 0
    ensures forall i :: 0 <= i < |parts| ==> sep !in parts[i]
    decreases |s|
  {
    if sep !in s then [s]
    else
      var i := IndexOf(s, sep);
      [s[..i]] + Split(s[i + 1..], sep)
  }

  /** `parts.join(sep)`. */
  function Join(parts: seq<string>, sep: char): string
    requires |parts| > 0
  {
    if |parts| == 1 then parts[0] else parts[0] + [sep] + Join(parts[1..], sep)
  }

  /** Splitting undoes joining pieces that do not contain the separator. */
  lemma {:induction false} SplitJoin(parts: seq<string>, sep: char)
    requires |parts| > 0
    requires forall i :: 0 <= i < |parts| ==> sep !in parts[i]
    ensures Split(Join(parts, sep), sep) == parts
  {
    if |parts| > 1 {
      var p := parts[0];
      var rest := Join(parts[1..], sep);
      var s := p + [sep] + rest;
      assert s[|p|] == sep;
      assert s[..|p|] == p;
      IndexOfIs(s, sep, |p|);
      assert s[|p| + 1..] == rest;
      assert Split(s, sep) == [p] + Split(rest, sep);
      SplitJoin(parts[1..], sep);
      assert Join(parts, sep) == s;
    }
  }

  /** Joining undoes splitting. */
  lemma {:induction false} JoinSplit(s: string, sep: char)
    ensures Join(Split(s, sep), sep) == s
    decreases |s|
  {
    if sep in s {
      var i := IndexOf(s, sep);
      JoinSplit(s[i + 1..], sep);
      assert s == s[..i] + [sep] + s[i + 1..];
    }
  }

  // ---------------------------------------------------------------------------
  // replace with a string pattern (first occurrence only)

  predicate OccursAt(s: string, pat: string, j: nat)
  {
    j + |pat| <= |s| && s[j..j + |pat|] == pat
  }

  function FindFrom(s: string, pat: string, k: nat): (r: Option<nat>)
    ensures r.Some? ==> k <= r.value && OccursAt(s, pat, r.value)
    ensures r.Some? ==> forall j :: k <= j < r.value ==> !OccursAt(s, pat, j)
    ensures r.None? ==> forall j :: k <= j ==> !OccursAt(s, pat, j)
    decreases |s| - k
  {
    if k + |pat| > |s| then None
    else if OccursAt(s, pat, k) then Some(k)
    else FindFrom(s, pat, k + 1)
  }

  /** `s.indexOf(pat)`, with `None` for -1. */
  function Find(s: string, pat: string): Option<nat>
  {
    FindFrom(s, pat, 0)
  }

  /** `GetSubstitution` for a string pattern, which has no capture groups:
      in the replacement text `$$` stands for `$`, `$&` for the matched text,
      `` $` `` for the text before the match and `$'` for the text after it;
      every other `$` (including `$1` and `$<`) is kept as it is. */
  function Substitution(rep: string, matched: string, before: string, after: string): string
  {
    if rep == [] then []
    else if rep[0] == '$' && |rep| >= 2 && rep[1] in "$&`'" then
      (if rep[1] == '$' then "$" else if rep[1] == '&' then matched else if rep[1] == '`' then before else after)
      + Substitution(rep[2..], matched, before, after)
    else [rep[0]] + Substitution(rep[1..], matched, before, after)
  }

  /** A replacement text without `$` is inserted literally. */
  lemma {:induction false} SubstitutionLiteral(rep: string, matched: string, before: string, after: string)
    requires '$' !in rep
    ensures Substitution(rep, matched, before, after) == rep
    decreases |rep|
  {
    if rep != [] {
      assert '$' !in rep[1..];
      SubstitutionLiteral(rep[1..], matched, before, after);
      assert rep == [rep[0]] + rep[1..];
    }
  }

  /** `s.replace(pat, rep)` with a string pattern: only the first occurrence is
      replaced, by the replacement text with its `$` patterns expanded. */
  function ReplaceFirst(s: string, pat: string, rep: string): (r: string)
    ensures Find(s, pat).None? ==> r == s
  {
    match Find(s, pat)
    case None => s
    case Some(i) => s[..i] + Substitution(rep, pat, s[..i], s[i + |pat|..]) + s[i + |pat|..]
  }

  /** Replacing a pattern that occurs once, between text in which it does not
      start: the expanded replacement stands in its place, and a replacement
      without `$` stands there literally. */
  lemma ReplaceFirstAt(pre: string, pat: string, post: string, rep: string)
    requires forall j :: 0 <= j < |pre| ==> !OccursAt(pre + pat + post, pat, j)
    ensures ReplaceFirst(pre + pat + post, pat, rep) == pre + Substitution(rep, pat, pre, post) + post
    ensures '$' !in rep ==> ReplaceFirst(pre + pat + post, pat, rep) == pre + rep + post
  {
    var s := pre + pat + post;
    assert OccursAt(s, pat, |pre|) by {
      assert s[|pre|..|pre| + |pat|] == pat;
    }
    assert Find(s, pat) == Some(|pre|);
    assert s[..|pre|] == pre;
    assert s[|pre| + |pat|..] == post;
    if '$' !in rep {
      SubstitutionLiteral(rep, pat, pre, post);
    }
  }

  // ---------------------------------------------------------------------------
  // The default sort order of strings: UTF-16 code units, compared one by one

  /** The UTF-16 code units of one character: itself below U+10000, otherwise
      a high surrogate (D800–DBFF) followed by a low one (DC00–DFFF). */
  function CodeUnits(c: char): (u: seq<int>)
    ensures 1 <= |u| <= 2
    ensures (|u| == 1) == (c as int < 0x1_0000)
    ensures |u| == 1 ==> !(0xD800 <= u[0] < 0xDC00)
    ensures |u| == 2 ==> 0xD800 <= u[0] < 0xDC00
  {
    var n := c as int;
    if n < 0x1_0000 then [n]
    else [0xD800 + (n - 0x1_0000) / 0x400, 0xDC00 + (n - 0x1_0000) % 0x400]
  }

  /** The UTF-16 encoding of a string, which JavaScript strings hold. */
  function Utf16(s: string): (u: seq<int>)
    ensures |u| >= |s|
  {
    if s == [] then [] else CodeUnits(s[0]) + Utf16(s[1..])
  }

  lemma CodeUnitsInjective(c: char, d: char)
    requires CodeUnits(c) == CodeUnits(d)
    ensures c == d
  {
    var n, m := c as int, d as int;
    if n >= 0x1_0000 {
      var q, r := (n - 0x1_0000) / 0x400, (n - 0x1_0000) % 0x400;
      var q', r' := (m - 0x1_0000) / 0x400, (m - 0x1_0000) % 0x400;
      assert q == q' && r == r';
      assert n - 0x1_0000 == q * 0x400 + r;
      assert m - 0x1_0000 == q' * 0x400 + r';
    }
  }

  /** Different strings have different encodings. */
  lemma {:induction false} Utf16Injective(a: string, b: string)
    requires Utf16(a) == Utf16(b)
    ensures a == b
    decreases |a|
  {
    if a != [] {
      assert b != [];
      var ua, ub := CodeUnits(a[0]), CodeUnits(b[0]);
      assert Utf16(a)[0] == ua[0] && Utf16(b)[0] == ub[0];
      assert |ua| == |ub|;
      assert Utf16(a)[..|ua|] == ua && Utf16(b)[..|ub|] == ub;
      CodeUnitsInjective(a[0], b[0]);
      assert Utf16(a)[|ua|..] == Utf16(a[1..]) && Utf16(b)[|ub|..] == Utf16(b[1..]);
      Utf16Injective(a[1..], b[1..]);
      assert a == [a[0]] + a[1..];
      assert b == [b[0]] + b[1..];
    }
  }

  /** Lexicographic order on code-unit sequences: a prefix sorts first. */
  predicate UnitsLessEq(a: seq<int>, b: seq<int>)
    decreases |a|
  {
    a == [] || (b != [] && (a[0] < b[0] || (a[0] == b[0] && UnitsLessEq(a[1..], b[1..]))))
  }

  /** `a` sorts no later than `b` under the default `Array.prototype.sort`,
      which compares the strings' UTF-16 code units. */
  predicate LessEq(a: string, b: string)
  {
    UnitsLessEq(Utf16(a), Utf16(b))
  }

  lemma {:induction false} UnitsLessEqTotal(a: seq<int>, b: seq<int>)
    ensures UnitsLessEq(a, b) || UnitsLessEq(b, a)
    decreases |a|
  {
    if a != [] && b != [] && a[0] == b[0] {
      UnitsLessEqTotal(a[1..], b[1..]);
    }
  }

  lemma {:induction false} UnitsLessEqTransitive(a: seq<int>, b: seq<int>, c: seq<int>)
    requires UnitsLessEq(a, b) && UnitsLessEq(b, c)
    ensures UnitsLessEq(a, c)
    decreases |a|
  {
    if a != [] && a[0] == b[0] && b[0] == c[0] {
      UnitsLessEqTransitive(a[1..], b[1..], c[1..]);
    }
  }

  lemma {:induction false} UnitsLessEqAntisymmetric(a: seq<int>, b: seq<int>)
    requires UnitsLessEq(a, b) && UnitsLessEq(b, a)
    ensures a == b
    decreases |a|
  {
    if a != [] {
      UnitsLessEqAntisymmetric(a[1..], b[1..]);
      assert a == [a[0]] + a[1..];
      assert b == [b[0]] + b[1..];
    }
  }

  lemma LessEqTotal(a: string, b: string)
    ensures LessEq(a, b) || LessEq(b, a)
  {
    UnitsLessEqTotal(Utf16(a), Utf16(b));
  }

  lemma LessEqTransitive(a: string, b: string, c: string)
    requires LessEq(a, b) && LessEq(b, c)
    ensures LessEq(a, c)
  {
    UnitsLessEqTransitive(Utf16(a), Utf16(b), Utf16(c));
  }

  lemma LessEqAntisymmetric(a: string, b: string)
    requires LessEq(a, b) && LessEq(b, a)
    ensures a == b
  {
    UnitsLessEqAntisymmetric(Utf16(a), Utf16(b));
    Utf16Injective(a, b);
  }

  /** The code-unit order differs from the code-point order: U+1F600 (an
      astral character, high surrogate D83D) sorts before U+FF21. */
  lemma AstralBeforeHighBmp()
    ensures LessEq("\U{1F600}", "\U{FF21}") && !LessEq("\U{FF21}", "\U{1F600}")
  {
    assert Utf16("\U{1F600}") == [0xD83D, 0xDE00];
    assert Utf16("\U{FF21}") == [0xFF21];
  }
}
