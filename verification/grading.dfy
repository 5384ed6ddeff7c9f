/** Grading of a typed answer: both the answer and the expected translation are
  * trimmed of surrounding whitespace (`str.strip()`) and lower-cased
  * (`str.lower()`), then compared for equality. */
module Grading {

  /** The characters `str.strip()` removes, within U+0000..U+00FF. */
  predicate IsSpace(c: char)
  {
    var k := c as int;
    k == 0x20 || 0x09 <= k <= 0x0D || 0x1C <= k <= 0x1F || k == 0x85 || k == 0xA0
  }

  /** The upper-case letters `str.lower()` changes, within U+0000..U+00FF. */
  predicate IsUpper(c: char)
  {
    var k := c as int;
    0x41 <= k <= 0x5A || (0xC0 <= k <= 0xDE && k != 0xD7)
  }

  function LowerChar(c: char): (d: char)
    ensures !IsUpper(d)
    ensures IsSpace(d) <==> IsSpace(c)
  {
    if IsUpper(c) then (c as int + 0x20) as char else c
  }

  function Lower(s: string): (r: string)
    ensures |r| == |s|
  {
    seq(|s|, i requires 0 <= i < |s| => LowerChar(s[i]))
  }

  predicate AllSpace(s: string)
  {
    forall i :: 0 <= i < |s| ==> IsSpace(s[i])
  }

  /** Neither starts nor ends with whitespace. */
  predicate Bare(s: string)
  {
    s == [] || (!IsSpace(s[0]) && !IsSpace(s[|s| - 1]))
  }

  /** `str.lstrip()` */
  function TrimStart(s: string): string
  {
    if s != [] && IsSpace(s[0]) then TrimStart(s[1..]) else s
  }

  /** `str.rstrip()` */
  function TrimEnd(s: string): string
  {
    if s != [] && IsSpace(s[|s| - 1]) then TrimEnd(s[..|s| - 1]) else s
  }

  /** `str.strip()`: the text without its leading and trailing whitespace. */
  function Strip(s: string): string
  {
    TrimEnd(TrimStart(s))
  }

  /** The normal form both sides of a comparison are brought to. */
  function Normalize(s: string): string
  {
    Lower(Strip(s))
  }

  /** `given.strip().lower() == str(expected).strip().lower()` */
  predicate IsCorrect(given: string, expected: string)
  {
    Normalize(given) == Normalize(expected)
  }

  // ---------------------------------------------------------------- lemmas

  lemma AllSpaceConcat(a: string, b: string)
    requires AllSpace(a) && AllSpace(b)
    ensures AllSpace(a + b)
  {
  }

  lemma Regroup(p: string, s: string, q: string, p': string, t: string, q': string)
    requires s == p' + t + q'
    ensures p + s + q == (p + p') + t + (q' + q)
  {
  }

  lemma Join(s: string, p: string, t: string, r: string, q: string)
    requires s == p + t && t == r + q
    ensures s == p + r + q
  {
  }

  /** Cuts `s` at `k`, where everything before `k` is whitespace. */
  lemma CutSpacePrefix(s: string, k: nat) returns (p: string, t: string)
    requires k <= |s|
    requires forall i :: 0 <= i < k ==> IsSpace(s[i])
    ensures AllSpace(p) && t == s[k..] && s == p + t
  {
    p, t := s[..k], s[k..];
  }

  /** Cuts `t` at `k`, where everything from `k` on is whitespace. */
  lemma CutSpaceSuffix(t: string, k: nat) returns (r: string, q: string)
    requires k <= |t|
    requires forall i :: k <= i < |t| ==> IsSpace(t[i])
    ensures AllSpace(q) && r == t[..k] && t == r + q
  {
    r, q := t[..k], t[k..];
  }

  /** `TrimStart` removes a whitespace prefix and stops at a non-whitespace character. */
  lemma {:induction false} TrimStartShape(s: string)
    ensures |TrimStart(s)| <= |s| && TrimStart(s) == s[|s| - |TrimStart(s)|..]
    ensures forall i :: 0 <= i < |s| - |TrimStart(s)| ==> IsSpace(s[i])
    ensures TrimStart(s) == [] || !IsSpace(TrimStart(s)[0])
  {
    if s != [] && IsSpace(s[0]) {
      TrimStartShape(s[1..]);
    }
  }

  /** `TrimEnd` removes a whitespace suffix and stops at a non-whitespace character. */
  lemma {:induction false} TrimEndShape(s: string)
    ensures |TrimEnd(s)| <= |s| && TrimEnd(s) == s[..|TrimEnd(s)|]
    ensures forall i :: |TrimEnd(s)| <= i < |s| ==> IsSpace(s[i])
    ensures TrimEnd(s) == [] || !IsSpace(TrimEnd(s)[|TrimEnd(s)| - 1])
  {
    if s != [] && IsSpace(s[|s| - 1]) {
      TrimEndShape(s[..|s| - 1]);
    }
  }

  /** Every text is its stripped form with whitespace around it, and the
    * stripped form neither starts nor ends with whitespace. */
  lemma StripSplit(s: string) returns (p: string, q: string)
    ensures AllSpace(p) && AllSpace(q) && Bare(Strip(s))
    ensures s == p + Strip(s) + q
  {
    TrimStartShape(s);
    var t, r;
    p, t := CutSpacePrefix(s, |s| - |TrimStart(s)|);
    TrimEndShape(t);
    r, q := CutSpaceSuffix(t, |TrimEnd(t)|);
    assert r != [] ==> r[0] == t[0];
    Join(s, p, t, r, q);
  }

  /** Stripping leaves nothing exactly when the text is all whitespace. */
  lemma StripEmpty(s: string)
    ensures Strip(s) == [] <==> AllSpace(s)
  {
    var p, q := StripSplit(s);
    var r := Strip(s);
    if r == [] {
      Join(s, p, r + q, r, q);
      AllSpaceConcat(p, q);
    } else {
      assert s[|p|] == r[0] && !IsSpace(r[0]);
    }
  }

  lemma {:induction false} TrimStartPadded(p: string, u: string)
    requires AllSpace(p)
    requires u == [] || !IsSpace(u[0])
    ensures TrimStart(p + u) == u
  {
    if p == [] {
      assert p + u == u;
    } else {
      assert (p + u)[1..] == p[1..] + u;
      TrimStartPadded(p[1..], u);
    }
  }

  lemma {:induction false} TrimEndPadded(u: string, q: string)
    requires AllSpace(q)
    requires u == [] || !IsSpace(u[|u| - 1])
    ensures TrimEnd(u + q) == u
  {
    if q == [] {
      assert u + q == u;
    } else {
      var q' := q[..|q| - 1];
      assert (u + q)[..|u + q| - 1] == u + q';
      TrimEndPadded(u, q');
    }
  }

  /** Stripping removes exactly the whitespace around a bare text: the form
    * found by `StripSplit` is the only one. */
  lemma StripPadded(p: string, t: string, q: string)
    requires AllSpace(p) && AllSpace(q) && Bare(t)
    ensures Strip(p + t + q) == t
  {
    if t == [] {
      assert p + t + q == p + q;
      AllSpaceConcat(p, q);
      var none: string := [];
      assert p + q + none == p + q;
      TrimStartPadded(p + q, none);
      assert TrimEnd(none) == none;
    } else {
      assert p + t + q == p + (t + q);
      TrimStartPadded(p, t + q);
      TrimEndPadded(t, q);
    }
  }

  /** Surrounding whitespace does not change the stripped form. */
  lemma StripIgnoresPadding(p: string, s: string, q: string)
    requires AllSpace(p) && AllSpace(q)
    ensures Strip(p + s + q) == Strip(s)
  {
    var p', q' := StripSplit(s);
    var t := Strip(s);
    Regroup(p, s, q, p', t, q');
    AllSpaceConcat(p, p');
    AllSpaceConcat(q', q);
    StripPadded(p + p', t, q' + q);
  }

  lemma LowerConcat(a: string, b: string)
    ensures Lower(a + b) == Lower(a) + Lower(b)
  {
  }

  /** Lower-casing a text cut in three pieces lower-cases each piece and keeps
    * whitespace pieces whitespace and a bare piece bare. */
  lemma LowerPieces(s: string, p: string, t: string, q: string)
    requires s == p + t + q
    requires AllSpace(p) && AllSpace(q) && Bare(t)
    ensures Lower(s) == Lower(p) + Lower(t) + Lower(q)
    ensures AllSpace(Lower(p)) && AllSpace(Lower(q)) && Bare(Lower(t))
  {
    LowerConcat(p + t, q);
    LowerConcat(p, t);
  }

  /** Lower-casing keeps whitespace whitespace, so it commutes with stripping:
    * `s.strip().lower() == s.lower().strip()`. */
  lemma StripLower(s: string)
    ensures Strip(Lower(s)) == Lower(Strip(s))
  {
    var p, q := StripSplit(s);
    var t := Strip(s);
    LowerPieces(s, p, t, q);
    StripPadded(Lower(p), Lower(t), Lower(q));
  }

  /** Two texts that lower-case alike have the same normal form. */
  lemma NormalizeIgnoresCase(a: string, b: string)
    requires Lower(a) == Lower(b)
    ensures Normalize(a) == Normalize(b)
  {
    StripLower(a);
    StripLower(b);
  }

  /** Grading ignores whitespace around the answer and around the expected text. */
  lemma GradingIgnoresPadding(p: string, given: string, q: string, expected: string)
    requires AllSpace(p) && AllSpace(q)
    ensures IsCorrect(p + given + q, expected) == IsCorrect(given, expected)
    ensures IsCorrect(given, p + expected + q) == IsCorrect(given, expected)
  {
    StripIgnoresPadding(p, given, q);
    StripIgnoresPadding(p, expected, q);
  }

  /** Grading ignores the case of the answer and of the expected text. */
  lemma GradingIgnoresCase(given: string, given': string, expected: string, expected': string)
    requires Lower(given) == Lower(given') && Lower(expected) == Lower(expected')
    ensures IsCorrect(given, expected) == IsCorrect(given', expected')
  {
    NormalizeIgnoresCase(given, given');
    NormalizeIgnoresCase(expected, expected');
  }

  /** A bare text is its own stripped form. */
  lemma StripBare(t: string)
    requires Bare(t)
    ensures Strip(t) == t
  {
    var none: string := [];
    assert none + t + none == t;
    StripPadded(none, t, none);
  }

  /** The spellings the examples below rest on. */
  lemma ExampleSpellings()
    ensures " " + "Apple" + " " == " Apple "
    ensures Lower("Apple") == "apple" && Lower("apple") == "apple"
    ensures Lower("NaN") == "nan" && Lower("nan") == "nan"
  {
  }

  /** " Apple " is accepted for "apple". */
  lemma AcceptsPaddedCapitalised()
    ensures IsCorrect(" Apple ", "apple")
  {
    ExampleSpellings();
    StripPadded(" ", "Apple", " ");
    StripBare("apple");
  }

  /** "apple" is not accepted for "Apple!". */
  lemma RejectsExtraCharacter()
    ensures !IsCorrect("apple", "Apple!")
  {
    var a, e := "apple", "Apple!";
    assert Bare(a) && Bare(e) && |a| != |e|;
    StripBare(a);
    StripBare(e);
  }

  /** An empty expected cell reads as "nan" (`str(NaN)`), which the answer "NaN" matches. */
  lemma AcceptsNanForEmptyCell()
    ensures IsCorrect("NaN", "nan")
  {
    ExampleSpellings();
    StripBare("NaN");
    StripBare("nan");
  }
}
