/** `serialize(payload, None)`: the JSON object `{"result": …, "error": null}`
    as `json.dumps` writes it with its default separators, and a reader that
    recovers the result from that text. */
module Json {
  import opened Wrappers
  import opened Text

  /** The character of a digit value. */
  function DigitChar(d: int): (c: char)
    requires 0 <= d < 10
    ensures IsDigit(c) && DigitValue(c) == d
  {
    ('0' as int + d) as char
  }

  /** `str(n)` for a natural number: its shortest decimal numeral. */
  function NatText(n: nat): (s: string)
    ensures IsNumeral(s) && DecimalValue(s) == n
    ensures |s| > 1 ==> s[0] != '0'
    decreases n
  {
    if n < 10 then [DigitChar(n)]
    else
      var t := NatText(n / 10);
      var s := t + [DigitChar(n % 10)];
      assert s[..|s| - 1] == t;
      s
  }

  /** `str(n)` has at most `k` digits exactly when `n < 10^k`; CPython 3.11
      and later refuse to write more than `IntMaxStrDigits`. */
  lemma {:induction false} NatTextDigits(n: nat, k: nat)
    requires k >= 1
    ensures |NatText(n)| <= k <==> n < Pow10(k)
    decreases n
  {
    var s := NatText(n);
    if |s| <= k {
      DecimalValueBound(s);
      Pow10Monotone(|s|, k);
    }
    if n < Pow10(k) && n >= 10 {
      assert k >= 2 by {
        assert Pow10(1) == 10;
      }
      assert n / 10 < Pow10(k - 1);
      NatTextDigits(n / 10, k - 1);
      assert |s| == |NatText(n / 10)| + 1;
    }
  }

  /** `str(n)` for any integer: a minus sign before the numeral of a negative
      value. */
  function IntText(n: int): (s: string)
    ensures IsIntText(s) && IntValue(s) == n
  {
    if n < 0 then "-" + NatText(-n) else NatText(n)
  }

  /** An optional minus sign followed by a digit run. */
  predicate IsIntText(s: string) {
    || IsNumeral(s)
    || (|s| > 1 && s[0] == '-' && IsNumeral(s[1..]))
  }

  /** `int(s)` for such a text. */
  function IntValue(s: string): int
    requires IsIntText(s)
  {
    if s[0] == '-' then -(DecimalValue(s[1..]) as int) else DecimalValue(s)
  }

  const Prefix: string := "{\"result\": "
  const Suffix: string := ", \"error\": null}"

  /** `serialize(payload, None)` (run_dummymodule.py:55-56). The only call
      passes `error=None`, so the error member is always `null`. CPython 3.11
      and later raise instead for a result of more than `IntMaxStrDigits`
      digits (`NatTextDigits` says which results those are); that failure is
      not modelled. */
  function Serialize(result: int): string {
    Prefix + IntText(result) + Suffix
  }

  /** The result recorded in a serialization, or `None` for a text that is
      not one. */
  function ReadResult(text: string): Option<int> {
    if |text| >= |Prefix| + |Suffix|
       && text[..|Prefix|] == Prefix
       && text[|text| - |Suffix|..] == Suffix
       && IsIntText(text[|Prefix|..|text| - |Suffix|])
    then Some(IntValue(text[|Prefix|..|text| - |Suffix|]))
    else None
  }

  // ---------------------------------------------------------------------------
  // Properties

  /** A result below `10^4300` is written as its numeral of at most 4300
      digits. */
  lemma SerializeWithinIntLimit(n: nat)
    requires n < Pow10(IntMaxStrDigits)
    ensures Serialize(n) == Prefix + NatText(n) + Suffix && |NatText(n)| <= IntMaxStrDigits
  {
    NatTextDigits(n, IntMaxStrDigits);
  }

  /** The result can be read back from its serialization. */
  lemma ReadSerialize(n: int)
    ensures ReadResult(Serialize(n)) == Some(n)
  {
    var t := IntText(n);
    var s := Serialize(n);
    assert s[..|Prefix|] == Prefix;
    assert s[|s| - |Suffix|..] == Suffix;
    assert s[|Prefix|..|s| - |Suffix|] == t;
  }

  /** Different results give different files. */
  lemma SerializeInjective(a: int, b: int)
    requires Serialize(a) == Serialize(b)
    ensures a == b
  {
    ReadSerialize(a);
    ReadSerialize(b);
  }
}
