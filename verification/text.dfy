/** Character classes and the string operations the evaluator is built from:
    whitespace and digit tests, `str.strip`, splitting at a separator, and the
    decimal value of a digit run. */
module Text {

  /** Python's `str.isspace`, which is also what `\s` matches in a `str`
      regular expression: the ASCII controls TAB..CR and FS..US, SPACE, and the
      Unicode separators NEL, NBSP, OGHAM SPACE MARK, EN QUAD..HAIR SPACE,
      LINE SEPARATOR, PARAGRAPH SEPARATOR, NNBSP, MMSP and IDEOGRAPHIC SPACE. */
  predicate IsSpace(c: char) {
    var n := c as int;
    || n == 0x20 || 0x09 <= n <= 0x0D || 0x1C <= n <= 0x1F
    || n == 0x85 || n == 0xA0 || n == 0x1680 || 0x2000 <= n <= 0x200A
    || n == 0x2028 || n == 0x2029 || n == 0x202F || n == 0x205F || n == 0x3000
  }

  /** A Unicode decimal digit (general category Nd, Unicode 15.0): what `\d`
      matches in a `str` pattern. Only the ASCII ones pass the whitelist. */
  predicate IsDecimal(c: char) {
    var n := c as int;
    || 0x30 <= n <= 0x39 || 0x660 <= n <= 0x669 || 0x6F0 <= n <= 0x6F9
    || 0x7C0 <= n <= 0x7C9 || 0x966 <= n <= 0x96F || 0x9E6 <= n <= 0x9EF
    || 0xA66 <= n <= 0xA6F || 0xAE6 <= n <= 0xAEF || 0xB66 <= n <= 0xB6F
    || 0xBE6 <= n <= 0xBEF || 0xC66 <= n <= 0xC6F || 0xCE6 <= n <= 0xCEF
    || 0xD66 <= n <= 0xD6F || 0xDE6 <= n <= 0xDEF || 0xE50 <= n <= 0xE59
    || 0xED0 <= n <= 0xED9 || 0xF20 <= n <= 0xF29 || 0x1040 <= n <= 0x1049
    || 0x1090 <= n <= 0x1099 || 0x17E0 <= n <= 0x17E9 || 0x1810 <= n <= 0x1819
    || 0x1946 <= n <= 0x194F || 0x19D0 <= n <= 0x19D9 || 0x1A80 <= n <= 0x1A89
    || 0x1A90 <= n <= 0x1A99 || 0x1B50 <= n <= 0x1B59 || 0x1BB0 <= n <= 0x1BB9
    || 0x1C40 <= n <= 0x1C49 || 0x1C50 <= n <= 0x1C59 || 0xA620 <= n <= 0xA629
    || 0xA8D0 <= n <= 0xA8D9 || 0xA900 <= n <= 0xA909 || 0xA9D0 <= n <= 0xA9D9
    || 0xA9F0 <= n <= 0xA9F9 || 0xAA50 <= n <= 0xAA59 || 0xABF0 <= n <= 0xABF9
    || 0xFF10 <= n <= 0xFF19 || 0x104A0 <= n <= 0x104A9 || 0x10D30 <= n <= 0x10D39
    || 0x11066 <= n <= 0x1106F || 0x110F0 <= n <= 0x110F9
    || 0x11136 <= n <= 0x1113F || 0x111D0 <= n <= 0x111D9
    || 0x112F0 <= n <= 0x112F9 || 0x11450 <= n <= 0x11459
    || 0x114D0 <= n <= 0x114D9 || 0x11650 <= n <= 0x11659
    || 0x116C0 <= n <= 0x116C9 || 0x11730 <= n <= 0x11739
    || 0x118E0 <= n <= 0x118E9 || 0x11950 <= n <= 0x11959
    || 0x11C50 <= n <= 0x11C59 || 0x11D50 <= n <= 0x11D59
    || 0x11DA0 <= n <= 0x11DA9 || 0x11F50 <= n <= 0x11F59
    || 0x16A60 <= n <= 0x16A69 || 0x16AC0 <= n <= 0x16AC9
    || 0x16B50 <= n <= 0x16B59 || 0x1D7CE <= n <= 0x1D7FF
    || 0x1E140 <= n <= 0x1E149 || 0x1E2F0 <= n <= 0x1E2F9
    || 0x1E4F0 <= n <= 0x1E4F9 || 0x1E950 <= n <= 0x1E959
    || 0x1FBF0 <= n <= 0x1FBF9
  }

  /** An ASCII decimal digit, the `0-9` of the character whitelist. */
  predicate IsDigit(c: char) {
    '0' <= c <= '9'
  }

  predicate AllSpaces(s: string) {
    forall i :: 0 <= i < |s| ==> IsSpace(s[i])
  }

  predicate AllDigits(s: string) {
    forall i :: 0 <= i < |s| ==> IsDigit(s[i])
  }

  /** `re.fullmatch(r"\d+", s)` for a string whose digits are ASCII. */
  predicate IsNumeral(s: string) {
    |s| > 0 && AllDigits(s)
  }

  /** Removes leading whitespace (`str.lstrip()`). */
  function TrimLeft(s: string): (r: string)
    ensures |r| <= |s| && r == s[|s| - |r|..]
    ensures AllSpaces(s[..|s| - |r|])
    ensures |r| > 0 ==> !IsSpace(r[0])
  {
    if |s| > 0 && IsSpace(s[0]) then TrimLeft(s[1..]) else s
  }

  /** Removes trailing whitespace (`str.rstrip()`). */
  function TrimRight(s: string): (r: string)
    ensures |r| <= |s| && r == s[..|r|]
    ensures AllSpaces(s[|r|..])
    ensures |r| > 0 ==> !IsSpace(r[|r| - 1])
  {
    if |s| > 0 && IsSpace(s[|s| - 1]) then TrimRight(s[..|s| - 1]) else s
  }

  /** `str.strip()`: the string without its leading and trailing whitespace. */
  function Trim(s: string): (r: string)
    ensures |r| <= |s|
    ensures |r| > 0 ==> !IsSpace(r[0]) && !IsSpace(r[|r| - 1])
  {
    var l := TrimLeft(s);
    var r := TrimRight(l);
    assert |r| > 0 ==> r[0] == l[0];
    r
  }

  /** Splitting at every occurrence of `sep`, keeping empty pieces
      (`str.split(sep)`). */
  function SplitAt(s: string, sep: char): (r: seq<string>)
    ensures |r| >= 1
    ensures forall i :: 0 <= i < |r| ==> sep !in r[i]
    decreases |s|
  {
    if |s| == 0 then [""]
    else if s[0] == sep then [""] + SplitAt(s[1..], sep)
    else
      var rest := SplitAt(s[1..], sep);
      [[s[0]] + rest[0]] + rest[1..]
  }

  /** The inverse of `SplitAt`: the pieces glued back with `sep` between them. */
  function Join(pieces: seq<string>, sep: char): (s: string)
    requires |pieces| >= 1
    decreases |pieces|
  {
    if |pieces| == 1 then pieces[0] else pieces[0] + [sep] + Join(pieces[1..], sep)
  }

  /** `re.split(r"\s*<sep>\s*", s)`, where `s` has no leading or trailing
      whitespace (the only way the evaluator uses it): the regular expression
      swallows the whitespace next to each separator, which is the same as
      stripping every piece of a plain split. */
  function SplitTrim(s: string, sep: char): (r: seq<string>)
    ensures |r| == |SplitAt(s, sep)| >= 1
    ensures forall i :: 0 <= i < |r| ==> r[i] == Trim(SplitAt(s, sep)[i])
  {
    var ps := SplitAt(s, sep);
    seq(|ps|, i requires 0 <= i < |ps| => Trim(ps[i]))
  }

  /** The value of a decimal digit. */
  function DigitValue(c: char): nat
    requires IsDigit(c)
  {
    (c as int) - ('0' as int)
  }

  /** `int(s)` for a run of ASCII digits, read most significant digit first. */
  function DecimalValue(s: string): (n: nat)
    requires AllDigits(s)
  {
    if |s| == 0 then 0 else 10 * DecimalValue(s[..|s| - 1]) + DigitValue(s[|s| - 1])
  }

  /** The default limit on the digits CPython 3.11 and later converts between
      an `int` and its decimal text, in either direction
      (`sys.get_int_max_str_digits()`). */
  const IntMaxStrDigits := 4300

  function Pow10(k: nat): (p: nat)
    ensures p >= 1
  {
    if k == 0 then 1 else 10 * Pow10(k - 1)
  }

  // ---------------------------------------------------------------------------
  // Properties

  /** Splitting and joining are inverse: nothing of the input is lost. */
  lemma {:induction false} JoinSplitAt(s: string, sep: char)
    ensures Join(SplitAt(s, sep), sep) == s
    decreases |s|
  {
    if |s| == 0 {
    } else if s[0] == sep {
      JoinSplitAt(s[1..], sep);
      assert s == [sep] + s[1..];
    } else {
      var rest := SplitAt(s[1..], sep);
      JoinSplitAt(s[1..], sep);
      if |rest| == 1 {
        assert s == [s[0]] + s[1..];
      } else {
        assert Join(rest, sep) == rest[0] + [sep] + Join(rest[1..], sep);
        assert s == [s[0]] + s[1..];
      }
    }
  }

  /** Splitting a join of separator-free pieces gives the pieces back. */
  lemma {:induction false} SplitAtJoin(pieces: seq<string>, sep: char)
    requires |pieces| >= 1
    requires forall i :: 0 <= i < |pieces| ==> sep !in pieces[i]
    ensures SplitAt(Join(pieces, sep), sep) == pieces
    decreases |pieces|
  {
    if |pieces| == 1 {
      SplitAtFree(pieces[0], sep);
    } else {
      SplitAtJoin(pieces[1..], sep);
      SplitAtPrefix(pieces[0], Join(pieces[1..], sep), sep);
    }
  }

  /** A string without the separator splits into itself. */
  lemma {:induction false} SplitAtFree(s: string, sep: char)
    requires sep !in s
    ensures SplitAt(s, sep) == [s]
    decreases |s|
  {
    if |s| > 0 {
      SplitAtFree(s[1..], sep);
      assert s == [s[0]] + s[1..];
    }
  }

  /** A separator-free prefix becomes the first piece. */
  lemma {:induction false} SplitAtPrefix(p: string, rest: string, sep: char)
    requires sep !in p
    ensures SplitAt(p + [sep] + rest, sep) == [p] + SplitAt(rest, sep)
    decreases |p|
  {
    if |p| == 0 {
      assert p + [sep] + rest == [sep] + rest;
    } else {
      SplitAtPrefix(p[1..], rest, sep);
      assert (p + [sep] + rest)[1..] == p[1..] + [sep] + rest;
      assert (p + [sep] + rest)[0] == p[0] != sep;
      assert [p[0]] + p[1..] == p;
    }
  }

  /** Every piece of a split is made of characters of the input. */
  lemma {:induction false} SplitAtAvoids(s: string, sep: char, c: char)
    requires c !in s
    ensures forall i :: 0 <= i < |SplitAt(s, sep)| ==> c !in SplitAt(s, sep)[i]
    decreases |s|
  {
    if |s| > 0 {
      SplitAtAvoids(s[1..], sep, c);
      assert c !in s[1..];
    }
  }

  /** Stripping keeps only characters of the input. */
  lemma TrimAvoids(s: string, c: char)
    requires c !in s
    ensures c !in Trim(s)
  {
    var l := TrimLeft(s);
    assert l == s[|s| - |l|..];
    var r := TrimRight(l);
    assert r == l[..|r|];
  }

  /** Leading zeros do not change a literal's value. */
  lemma {:induction false} LeadingZero(s: string)
    requires AllDigits(s)
    ensures DecimalValue("0" + s) == DecimalValue(s)
    decreases |s|
  {
    if |s| > 0 {
      var t := "0" + s;
      assert t[..|t| - 1] == "0" + s[..|s| - 1];
      LeadingZero(s[..|s| - 1]);
    }
  }

  /** A literal of `k` digits is below `10^k`, so a digit-count cap bounds
      the value of every literal. */
  lemma {:induction false} DecimalValueBound(s: string)
    requires AllDigits(s)
    ensures DecimalValue(s) < Pow10(|s|)
    decreases |s|
  {
    if |s| > 0 {
      DecimalValueBound(s[..|s| - 1]);
    }
  }

  /** Powers of ten grow with the exponent. */
  lemma {:induction false} Pow10Monotone(j: nat, k: nat)
    requires j <= k
    ensures Pow10(j) <= Pow10(k)
    decreases k
  {
    if j < k {
      Pow10Monotone(j, k - 1);
    }
  }

  /** Stripping whitespace padding gives back a text that neither starts nor
      ends with whitespace. */
  /** `10^(a + b) == 10^a * 10^b`. */
  lemma {:induction false} Pow10Add(a: nat, b: nat)
    ensures Pow10(a + b) == Pow10(a) * Pow10(b)
    decreases a
  {
    if a > 0 {
      Pow10Add(a - 1, b);
      assert Pow10(a + b) == 10 * Pow10(a - 1 + b);
    }
  }

  lemma TrimPadded(l: string, x: string, r: string)
    requires AllSpaces(l) && AllSpaces(r)
    requires |x| > 0 && !IsSpace(x[0]) && !IsSpace(x[|x| - 1])
    ensures Trim(l + x + r) == x
  {
    assert l + x + r == l + (x + r);
    TrimLeftPadded(l, x + r);
    TrimRightPadded(x, r);
  }

  lemma {:induction false} TrimLeftPadded(l: string, x: string)
    requires AllSpaces(l) && |x| > 0 && !IsSpace(x[0])
    ensures TrimLeft(l + x) == x
    decreases |l|
  {
    if |l| == 0 {
      assert l + x == x;
    } else {
      assert (l + x)[1..] == l[1..] + x;
      TrimLeftPadded(l[1..], x);
    }
  }

  lemma {:induction false} TrimRightPadded(x: string, r: string)
    requires AllSpaces(r) && |x| > 0 && !IsSpace(x[|x| - 1])
    ensures TrimRight(x + r) == x
    decreases |r|
  {
    if |r| == 0 {
      assert x + r == x;
    } else {
      assert (x + r)[..|x + r| - 1] == x + r[..|r| - 1];
      TrimRightPadded(x, r[..|r| - 1]);
    }
  }
}
