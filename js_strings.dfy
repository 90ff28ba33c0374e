/**
 * The few JavaScript and Python string behaviours the gateway relies on,
 * written out: truthiness of optional strings, `x || ""`, what a template
 * literal prints for an out-of-range index, `startsWith`, `endsWith`,
 * `repeat`, `padStart`, Python's `zfill`, and the regular-expression class
 * `[0-9a-f]`.
 */
module JsStrings {
  import opened Wrappers

  /** JavaScript truthiness of a `string | undefined`: both `undefined` and `""` are falsy. */
  predicate Truthy(s: Option<string>) {
    s.Some? && s.value != ""
  }

  /** `s || ""` */
  function OrEmpty(s: Option<string>): (r: string)
    ensures Truthy(s) <==> r != ""
    ensures Truthy(s) ==> r == s.value
  {
    if s.Some? then s.value else ""
  }

  /** What `${h[i]}` prints: the character, or the text "undefined" past the end. */
  function CharAt(h: string, i: nat): (r: string)
    ensures i < |h| ==> r == [h[i]]
    ensures i >= |h| ==> r == "undefined"
  {
    if i < |h| then [h[i]] else "undefined"
  }

  predicate StartsWith(s: string, prefix: string) {
    |prefix| <= |s| && s[..|prefix|] == prefix
  }

  predicate EndsWith(s: string, suffix: string) {
    |suffix| <= |s| && s[|s| - |suffix|..] == suffix
  }

  /** A concatenation starts with its left part and ends with its right part. */
  lemma ConcatAffixes(a: string, b: string)
    ensures StartsWith(a + b, a) && EndsWith(a + b, b)
  {
    assert (a + b)[..|a|] == a;
    assert (a + b)[|a|..] == b;
  }

  /** `p + (a + m + h)` starts with `p + a` and ends with `h`. */
  lemma ConcatAffixes4(p: string, a: string, m: string, h: string)
    ensures StartsWith(p + (a + m + h), p + a) && EndsWith(p + (a + m + h), h)
  {
    assert p + (a + m + h) == (p + a) + (m + h);
    assert p + (a + m + h) == (p + a + m) + h;
    ConcatAffixes(p + a, m + h);
    ConcatAffixes(p + a + m, h);
  }

  /**
   * `c * n` in Python, empty for n <= 0; also `c.repeat(n)` in JavaScript,
   * which the model only calls with n >= 0 (a negative count throws there).
   */
  function Repeat(c: char, n: int): (r: string)
    ensures |r| == if n <= 0 then 0 else n
    ensures forall i | 0 <= i < |r| :: r[i] == c
  {
    if n <= 0 then "" else Repeat(c, n - 1) + [c]
  }

  /** JavaScript `s.padStart(width, c)` for a one-character fill. */
  function PadStart(s: string, width: int, c: char): (r: string)
    ensures |r| == if |s| >= width then |s| else width
  {
    if |s| >= width then s else Repeat(c, width - |s|) + s
  }

  /** Padding keeps the string at the end and puts only fill characters in front of it. */
  lemma PadStartShape(s: string, width: int, c: char)
    ensures EndsWith(PadStart(s, width, c), s)
    ensures forall i | 0 <= i < |PadStart(s, width, c)| - |s| :: PadStart(s, width, c)[i] == c
  {
    var r := PadStart(s, width, c);
    if |s| < width {
      assert r[|r| - |s|..] == s;
    }
  }

  /** Python `s.zfill(width)`: zeros are inserted after a leading sign, if any. */
  function ZFill(s: string, width: int): (r: string)
    ensures |r| == if |s| >= width then |s| else width
  {
    if |s| >= width then s
    else if |s| > 0 && (s[0] == '+' || s[0] == '-') then [s[0]] + Repeat('0', width - |s|) + s[1..]
    else Repeat('0', width - |s|) + s
  }

  /** Without a sign in front, Python's `zfill` and JavaScript's `padStart` with "0" agree. */
  lemma ZFillIsPadStart(s: string, width: int)
    requires |s| == 0 || (s[0] != '+' && s[0] != '-')
    ensures ZFill(s, width) == PadStart(s, width, '0')
  {
  }

  /** The regular-expression class `[0-9a-f]`. */
  predicate IsLowerHexChar(c: char) {
    '0' <= c <= '9' || 'a' <= c <= 'f'
  }

  /** The regular expression `^[0-9a-f]{40}$`. */
  predicate IsLowerHex40(s: string) {
    |s| == 40 && forall i | 0 <= i < |s| :: IsLowerHexChar(s[i])
  }
}
