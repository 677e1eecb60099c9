/** The kebab-case tool names of the development UI's toolbar, from which the
    tool buttons' CSS classes are built. */
module RsToolbar {

  predicate IsUpper(c: char) { 'A' <= c <= 'Z' }

  predicate IsLower(c: char) { 'a' <= c <= 'z' }

  function ToLower(c: char): (l: char)
    requires IsUpper(c)
    ensures IsLower(l)
  {
    (c as int + 32) as char
  }

  function ToUpper(c: char): (u: char)
    requires IsLower(c)
    ensures IsUpper(u)
  {
    (c as int - 32) as char
  }

  predicate NoUpper(s: string) { forall i :: 0 <= i < |s| ==> !IsUpper(s[i]) }

  /** What `/[A-Z]/g` turns one character into. */
  function KebabChar(c: char): string
  {
    if IsUpper(c) then ['-', ToLower(c)] else [c]
  }

  function CountUpper(s: string): nat
  {
    if s == [] then 0 else (if IsUpper(s[0]) then 1 else 0) + CountUpper(s[1..])
  }

  /** `toKebabCase`: every ASCII capital becomes `-` and its lowercase
      letter, every other character is kept. */
  function ToKebabCase(s: string): (r: string)
    ensures NoUpper(r)
    ensures |r| == |s| + CountUpper(s)
  {
    if s == [] then [] else KebabChar(s[0]) + ToKebabCase(s[1..])
  }

  /** The replacement works character by character. */
  lemma {:induction false} KebabOfConcat(a: string, b: string)
    ensures ToKebabCase(a + b) == ToKebabCase(a) + ToKebabCase(b)
  {
    if a != [] {
      assert (a + b)[0] == a[0] && (a + b)[1..] == a[1..] + b;
      KebabOfConcat(a[1..], b);
    } else {
      assert a + b == b;
    }
  }

  /** A name without capitals is its own kebab-case. */
  lemma {:induction false} NoUpperUnchanged(s: string)
    requires NoUpper(s)
    ensures ToKebabCase(s) == s
  {
    if s != [] {
      NoUpperUnchanged(s[1..]);
    }
  }

  /** Converting twice is converting once. */
  lemma KebabIdempotent(s: string)
    ensures ToKebabCase(ToKebabCase(s)) == ToKebabCase(s)
  {
    NoUpperUnchanged(ToKebabCase(s));
  }

  /** One capital between two runs without capitals. */
  lemma KebabOfOneUpper(pre: string, c: char, post: string)
    requires NoUpper(pre) && IsUpper(c) && NoUpper(post)
    ensures ToKebabCase(pre + [c] + post) == pre + ['-', ToLower(c)] + post
  {
    KebabOfConcat(pre + [c], post);
    KebabOfConcat(pre, [c]);
    NoUpperUnchanged(pre);
    NoUpperUnchanged(post);
    assert ToKebabCase([c]) == ['-', ToLower(c)] by {
      assert [c][1..] == [];
    }
  }

  lemma CelestialRotate()
    ensures ToKebabCase("celestialRotate") == "celestial-rotate"
  {
    var pre, post := "celestial", "otate";
    assert "celestialRotate" == pre + ['R'] + post;
    KebabOfOneUpper(pre, 'R', post);
    assert ToLower('R') == 'r';
    assert pre + ['-', 'r'] + post == "celestial-rotate";
  }

  /** The inverse on names without `-`: a `-` before a lowercase letter
      becomes that letter's capital. */
  function FromKebabCase(s: string): string
  {
    if s == [] then []
    else if |s| >= 2 && s[0] == '-' && IsLower(s[1]) then [ToUpper(s[1])] + FromKebabCase(s[2..])
    else [s[0]] + FromKebabCase(s[1..])
  }

  /** For a name without `-`, no information is lost. */
  lemma {:induction false} KebabRoundTrip(s: string)
    requires '-' !in s
    ensures FromKebabCase(ToKebabCase(s)) == s
  {
    if s != [] {
      var rest := ToKebabCase(s[1..]);
      assert '-' !in s[1..] by {
        forall c | c in s[1..] ensures c != '-' { assert c in s; }
      }
      KebabRoundTrip(s[1..]);
      if IsUpper(s[0]) {
        var k := ToKebabCase(s);
        assert k == ['-', ToLower(s[0])] + rest;
        assert k[2..] == rest;
        assert ToUpper(ToLower(s[0])) == s[0];
      } else {
        var k := ToKebabCase(s);
        assert k == [s[0]] + rest;
        assert k[1..] == rest;
      }
    }
  }
}
