/** `safe_eval_addmul`: a guarded evaluator for untrusted expressions of the
    form `number ((+|*) number)*`. The guards run in a fixed order and the
    first one that fails decides the error; an expression that passes all of
    them is evaluated as a sum of products over unbounded integers. CPython's
    4300-digit limit on `int()` of a string is not modelled: it cannot be
    reached while `max_digits_per_number` is at most 4300, as it is by
    default (`ConvertedWithinIntLimit`). */
module AddMul {
  import opened Wrappers
  import opened Text
  import opened Structure

  /** The keyword parameters `max_len`, `max_terms`, `max_factors` and
      `max_digits_per_number`. */
  datatype Limits = Limits(maxLen: int, maxTerms: int, maxFactors: int, maxDigits: int)

  /** The defaults, which are what `handle_args` uses. */
  const DefaultLimits := Limits(512, 128, 128, 6)

  /** One tag per `ValueError` message, in the order the guards run. */
  datatype EvalError =
    | InvalidLength       // "invalid length"
    | IllegalCharacters   // "illegal characters detected"
    | InvalidStructure    // "invalid structure"
    | TooManyTerms        // "too many additive terms"
    | EmptyFactor         // "empty factor"
    | TooManyFactors      // "too many multiplicative factors"
    | NonDigit            // "non-digit in number"
    | LiteralTooLong      // "number literal too long"

  // ---------------------------------------------------------------------------
  // The guards, each a predicate over the expression or its pieces

  /** Non-empty and at most `max_len` characters. */
  predicate LengthOk(e: string, lim: Limits) {
    0 < |e| <= lim.maxLen
  }

  /** A character of the whitelist `[0-9+*\s]`. */
  predicate IsAllowed(c: char) {
    IsDigit(c) || c == '+' || c == '*' || IsSpace(c)
  }

  /** `re.fullmatch(r"[0-9+*\s]+", e)`. */
  predicate AllAllowed(e: string) {
    |e| > 0 && forall i :: 0 <= i < |e| ==> IsAllowed(e[i])
  }

  /** The only decimal digits the whitelist lets through are ASCII, so on a
      whitelisted string the scanner decides the structural pattern. */
  lemma PatternOnWhitelist(e: string)
    requires AllAllowed(e)
    ensures PatternMatches(e) <==> WellStructured(e)
  {
    forall i | 0 <= i < |e|
      ensures IsDecimal(e[i]) ==> IsDigit(e[i])
    {
      assert IsAllowed(e[i]);
    }
    PatternRunAscii(Pre, e);
  }


  /** The additive terms: the stripped expression split at `+`. */
  function Terms(e: string): (ts: seq<string>)
    ensures |ts| >= 1
  {
    SplitTrim(Trim(e), '+')
  }

  /** The multiplicative factors of one term: the term split at `*`. */
  function Factors(t: string): (fs: seq<string>)
    ensures |fs| >= 1
  {
    SplitTrim(t, '*')
  }

  predicate AllNumerals(fs: seq<string>) {
    forall j :: 0 <= j < |fs| ==> IsNumeral(fs[j])
  }

  /** Every factor of every term is a digit run: neither the empty-factor nor
      the non-digit guard can fire. */
  predicate NumeralsOnly(ts: seq<string>) {
    forall i :: 0 <= i < |ts| ==> AllNumerals(Factors(ts[i]))
  }

  /** A term passes all of its guards: no empty factor, at most `max_factors`
      factors, each a digit run of at most `max_digits_per_number` digits. */
  predicate TermOk(t: string, lim: Limits) {
    var fs := Factors(t);
    && AllNumerals(fs)
    && |fs| <= lim.maxFactors
    && forall j :: 0 <= j < |fs| ==> |fs[j]| <= lim.maxDigits
  }

  /** A factor passes both of its checks. */
  predicate FactorOk(f: string, lim: Limits) {
    IsNumeral(f) && |f| <= lim.maxDigits
  }

  /** The expression passes the guards that run before the term loop. */
  predicate Screened(e: string, lim: Limits) {
    LengthOk(e, lim) && AllAllowed(e) && WellStructured(e) && |Terms(e)| <= lim.maxTerms
  }

  /** The position of the first `false`, `|bs|` when there is none. */
  function FirstFalse(bs: seq<bool>): (k: nat)
    ensures k <= |bs|
    ensures forall i :: 0 <= i < k ==> bs[i]
    ensures k < |bs| ==> !bs[k]
    decreases |bs|
  {
    if |bs| == 0 || !bs[0] then 0
    else
      assert forall i :: 1 <= i < |bs| ==> bs[1..][i - 1] == bs[i];
      1 + FirstFalse(bs[1..])
  }

  /** The outcome of the factor checks, one per factor. */
  function FactorChecks(fs: seq<string>, lim: Limits): (bs: seq<bool>)
    ensures |bs| == |fs|
    ensures forall j :: 0 <= j < |fs| ==> bs[j] == FactorOk(fs[j], lim)
  {
    seq(|fs|, j requires 0 <= j < |fs| => FactorOk(fs[j], lim))
  }

  /** The outcome of the term guards, one per term. */
  function TermChecks(ts: seq<string>, lim: Limits): (bs: seq<bool>)
    ensures |bs| == |ts|
    ensures forall i :: 0 <= i < |ts| ==> bs[i] == TermOk(ts[i], lim)
  {
    seq(|ts|, i requires 0 <= i < |ts| => TermOk(ts[i], lim))
  }

  /** The position of the first factor that fails a check, `|fs|` when none
      does. */
  function FirstBadFactor(fs: seq<string>, lim: Limits): nat {
    FirstFalse(FactorChecks(fs, lim))
  }

  /** The position of the first term that fails a guard, `|ts|` when none
      does. */
  function FirstBadTerm(ts: seq<string>, lim: Limits): nat {
    FirstFalse(TermChecks(ts, lim))
  }

  /** After a first term that passes, the first failing term is one further
      along than in the rest. */
  lemma FirstBadTermCons(ts: seq<string>, lim: Limits)
    requires |ts| > 0 && TermOk(ts[0], lim)
    ensures FirstBadTerm(ts, lim) == 1 + FirstBadTerm(ts[1..], lim)
    ensures FirstBadTerm(ts[1..], lim) < |ts| - 1 ==>
      ts[1..][FirstBadTerm(ts[1..], lim)] == ts[FirstBadTerm(ts, lim)]
  {
    var bs := TermChecks(ts, lim);
    assert TermChecks(ts[1..], lim) == bs[1..] by {
      forall i | 0 <= i < |ts| - 1
        ensures TermChecks(ts[1..], lim)[i] == bs[1..][i]
      {
        assert ts[1..][i] == ts[i + 1];
      }
    }
    assert bs[0];
  }

  /** After a first factor that passes, the first failing factor is one
      further along than in the rest. */
  lemma FirstBadFactorCons(fs: seq<string>, lim: Limits)
    requires |fs| > 0 && FactorOk(fs[0], lim)
    ensures FirstBadFactor(fs, lim) == 1 + FirstBadFactor(fs[1..], lim)
    ensures FirstBadFactor(fs[1..], lim) < |fs| - 1 ==>
      fs[1..][FirstBadFactor(fs[1..], lim)] == fs[FirstBadFactor(fs, lim)]
  {
    var bs := FactorChecks(fs, lim);
    assert FactorChecks(fs[1..], lim) == bs[1..] by {
      forall i | 0 <= i < |fs| - 1
        ensures FactorChecks(fs[1..], lim)[i] == bs[1..][i]
      {
        assert fs[1..][i] == fs[i + 1];
      }
    }
    assert bs[0];
  }


  /** Every guard passes, stated without reference to their order. */
  predicate Accepted(e: string, lim: Limits) {
    && LengthOk(e, lim)
    && AllAllowed(e)
    && WellStructured(e)
    && |Terms(e)| <= lim.maxTerms
    && forall i :: 0 <= i < |Terms(e)| ==> TermOk(Terms(e)[i], lim)
  }

  // ---------------------------------------------------------------------------
  // The arithmetic meaning of an expression

  function Sum(xs: seq<int>): int {
    if |xs| == 0 then 0 else xs[0] + Sum(xs[1..])
  }

  function Prod(xs: seq<int>): int {
    if |xs| == 0 then 1 else xs[0] * Prod(xs[1..])
  }

  /** The values of a list of digit runs. */
  function Literals(fs: seq<string>): (vs: seq<int>)
    requires AllNumerals(fs)
    ensures |vs| == |fs|
  {
    seq(|fs|, j requires 0 <= j < |fs| => DecimalValue(fs[j]))
  }

  /** Sum over the terms of the product of their literals. */
  function SumOfProducts(ts: seq<string>): int
    requires NumeralsOnly(ts)
  {
    Sum(seq(|ts|, i requires 0 <= i < |ts| => Prod(Literals(Factors(ts[i])))))
  }

  // ---------------------------------------------------------------------------
  // The evaluator

  /** The inner loop over the factors of one term (run_dummymodule.py:147-155):
      each factor is checked to be a digit run, then its length, then it is
      multiplied in. */
  function EvalFactors(fs: seq<string>, lim: Limits): (r: Result<int, EvalError>)
    ensures r.Success? <==> AllNumerals(fs) && forall j :: 0 <= j < |fs| ==> |fs[j]| <= lim.maxDigits
    ensures r.Success? ==> r.value == Prod(Literals(fs)) && r.value >= 0
    ensures r.Failure? ==> r.error == NonDigit || r.error == LiteralTooLong
    ensures r.Failure? && AllNumerals(fs) ==> r.error == LiteralTooLong
    ensures var k := FirstBadFactor(fs, lim);
      r.Failure? ==> k < |fs| && r.error == (if IsNumeral(fs[k]) then LiteralTooLong else NonDigit)
    decreases |fs|
  {
    if |fs| == 0 then Success(1)
    else if !IsNumeral(fs[0]) then Failure(NonDigit)
    else if |fs[0]| > lim.maxDigits then Failure(LiteralTooLong)
    else
      FirstBadFactorCons(fs, lim);
      var rest :- EvalFactors(fs[1..], lim);
      assert Literals(fs) == [DecimalValue(fs[0])] + Literals(fs[1..]);
      Success(DecimalValue(fs[0]) * rest)
  }

  /** One additive term (run_dummymodule.py:141-157). `not factors` is never
      true, a split always having at least one piece. */
  function EvalTerm(t: string, lim: Limits): (r: Result<int, EvalError>)
    ensures r.Success? <==> TermOk(t, lim)
    ensures r.Success? ==> r.value == Prod(Literals(Factors(t))) && r.value >= 0
    ensures r.Failure? ==> r.error in {EmptyFactor, TooManyFactors, NonDigit, LiteralTooLong}
    ensures r.Failure? && AllNumerals(Factors(t)) ==> r.error in {TooManyFactors, LiteralTooLong}
    ensures r == Failure(EmptyFactor) <==> exists j :: 0 <= j < |Factors(t)| && Factors(t)[j] == ""
    ensures r == Failure(TooManyFactors) <==>
      (forall j :: 0 <= j < |Factors(t)| ==> Factors(t)[j] != "") && |Factors(t)| > lim.maxFactors
    ensures (forall j :: 0 <= j < |Factors(t)| ==> Factors(t)[j] != "") && |Factors(t)| <= lim.maxFactors ==>
      r == EvalFactors(Factors(t), lim)
  {
    var fs := Factors(t);
    if exists j :: 0 <= j < |fs| && fs[j] == "" then Failure(EmptyFactor)
    else if |fs| > lim.maxFactors then Failure(TooManyFactors)
    else EvalFactors(fs, lim)
  }

  /** The outer loop over the additive terms (run_dummymodule.py:138-159),
      stopping at the first term that fails a guard. */
  function EvalTerms(ts: seq<string>, lim: Limits): (r: Result<int, EvalError>)
    ensures r.Success? <==> forall i :: 0 <= i < |ts| ==> TermOk(ts[i], lim)
    ensures r.Success? ==> NumeralsOnly(ts) && r.value == SumOfProducts(ts) && r.value >= 0
    ensures r.Failure? ==> r.error in {EmptyFactor, TooManyFactors, NonDigit, LiteralTooLong}
    ensures r.Failure? && NumeralsOnly(ts) ==> r.error in {TooManyFactors, LiteralTooLong}
    ensures var k := FirstBadTerm(ts, lim);
      r.Failure? ==> k < |ts| && r == EvalTerm(ts[k], lim)
    decreases |ts|
  {
    if |ts| == 0 then Success(0)
    else
      match EvalTerm(ts[0], lim)
      case Failure(err) => Failure(err)
      case Success(p) =>
        TermsCons(ts, lim);
        match EvalTerms(ts[1..], lim)
        case Failure(err) =>
          FirstBadTermCons(ts, lim);
          Failure(err)
        case Success(rest) =>
          SumOfProductsCons(ts);
          Success(p + rest)
  }

  /** A property holds of every term iff it holds of the first and of the rest. */
  lemma TermsCons(ts: seq<string>, lim: Limits)
    requires |ts| > 0
    ensures (forall i :: 0 <= i < |ts| ==> TermOk(ts[i], lim)) <==>
      TermOk(ts[0], lim) && forall i :: 0 <= i < |ts| - 1 ==> TermOk(ts[1..][i], lim)
    ensures NumeralsOnly(ts) <==> AllNumerals(Factors(ts[0])) && NumeralsOnly(ts[1..])
  {
    assert forall i :: 1 <= i < |ts| ==> ts[1..][i - 1] == ts[i];
  }

  /** The first term's product followed by the sum of the others. */
  lemma SumOfProductsCons(ts: seq<string>)
    requires |ts| > 0 && NumeralsOnly(ts)
    ensures NumeralsOnly(ts[1..])
    ensures SumOfProducts(ts) == Prod(Literals(Factors(ts[0]))) + SumOfProducts(ts[1..])
  {
    assert forall i :: 1 <= i < |ts| ==> ts[1..][i - 1] == ts[i];
    var all := seq(|ts|, i requires 0 <= i < |ts| => Prod(Literals(Factors(ts[i]))));
    var tail := seq(|ts| - 1, i requires 0 <= i < |ts| - 1 => Prod(Literals(Factors(ts[1..][i]))));
    assert all[1..] == tail;
  }

  /** Every factor of a term that passes the factor loop is below
      `10^max_digits_per_number`: the digit cap bounds the value of each
      literal. */
  lemma LiteralsBelowCap(fs: seq<string>, lim: Limits)
    requires lim.maxDigits >= 0 && EvalFactors(fs, lim).Success?
    ensures forall j :: 0 <= j < |fs| ==> DecimalValue(fs[j]) < Pow10(lim.maxDigits)
  {
    forall j | 0 <= j < |fs|
      ensures DecimalValue(fs[j]) < Pow10(lim.maxDigits)
    {
      assert IsNumeral(fs[j]);
      DecimalValueBound(fs[j]);
      Pow10Monotone(|fs[j]|, lim.maxDigits);
    }
  }

  /** The factors the loop passes to `int()` are those before the first one
      that fails a check. With a digit cap of at most 4300 none of them has
      more digits than `int()` accepts, so its limit never fires. */
  lemma ConvertedWithinIntLimit(fs: seq<string>, lim: Limits)
    requires lim.maxDigits <= IntMaxStrDigits
    ensures forall j :: 0 <= j < FirstBadFactor(fs, lim) ==>
      IsNumeral(fs[j]) && |fs[j]| <= IntMaxStrDigits
  {
    var bs := FactorChecks(fs, lim);
    forall j | 0 <= j < FirstBadFactor(fs, lim)
      ensures IsNumeral(fs[j]) && |fs[j]| <= IntMaxStrDigits
    {
      assert bs[j];
    }
  }

  /** `a * b <= c * d` for `0 <= a <= c` and `0 <= b <= d`. */
  lemma MulLe(a: int, b: int, c: int, d: int)
    requires 0 <= a <= c && 0 <= b <= d
    ensures a * b <= c * d
  {
    assert a * b <= c * b;
  }

  /** One more literal below `10^d` multiplies a bound `10^m` up to
      `10^(d + m)`. */
  lemma PowStep(a: int, p: int, d: nat, m: nat)
    requires 0 <= a < Pow10(d) && 0 <= p <= Pow10(m)
    ensures 0 <= a * p <= Pow10(d + m)
  {
    MulLe(a, p, Pow10(d), Pow10(m));
    Pow10Add(d, m);
  }

  /** A product of `k` literals each below `10^d` is at most `10^(d * k)`. */
  lemma {:induction false} ProdBound(vs: seq<int>, d: nat)
    requires forall j :: 0 <= j < |vs| ==> 0 <= vs[j] < Pow10(d)
    ensures 0 <= Prod(vs) <= Pow10(d * |vs|)
    decreases |vs|
  {
    if |vs| > 0 {
      var k := |vs| - 1;
      ProdBound(vs[1..], d);
      PowStep(vs[0], Prod(vs[1..]), d, d * k);
      assert d + d * k == d * |vs|;
    }
  }

  /** A sum of `k` values in `[0, m]` lies in `[0, k * m]`. */
  lemma {:induction false} SumBound(xs: seq<int>, m: int)
    requires forall i :: 0 <= i < |xs| ==> 0 <= xs[i] <= m
    ensures 0 <= Sum(xs) <= |xs| * m
    decreases |xs|
  {
    if |xs| > 0 {
      var k := |xs| - 1;
      SumBound(xs[1..], m);
      assert k * m + m == |xs| * m;
    }
  }

  /** Raising the count of literals to the cap raises the bound. */
  lemma CapMonotone(d: nat, k: nat, f: nat)
    requires 1 <= d && 1 <= k <= f
    ensures 1 <= d * f && Pow10(d * k) <= Pow10(d * f)
  {
    MulLe(1, 1, d, f);
    MulLe(d, k, d, f);
    Pow10Monotone(d * k, d * f);
  }

  /** A term that passes its guards is worth at most
      `10^(max_digits_per_number * max_factors)`; its guards also show that
      both limits are positive. */
  lemma TermBound(t: string, lim: Limits)
    requires TermOk(t, lim)
    ensures lim.maxFactors >= 1 && lim.maxDigits >= 1 && lim.maxDigits * lim.maxFactors >= 1
    ensures 0 <= Prod(Literals(Factors(t))) <= Pow10(lim.maxDigits * lim.maxFactors)
  {
    var fs := Factors(t);
    assert IsNumeral(fs[0]);
    var d: nat := lim.maxDigits;
    var vs := Literals(fs);
    forall j | 0 <= j < |vs|
      ensures 0 <= vs[j] < Pow10(d)
    {
      assert IsNumeral(fs[j]);
      DecimalValueBound(fs[j]);
      Pow10Monotone(|fs[j]|, d);
    }
    ProdBound(vs, d);
    CapMonotone(d, |vs|, lim.maxFactors);
  }

  /** Terms that pass their guards are worth at most their count times the
      bound on one term. */
  lemma SumOfProductsBound(ts: seq<string>, lim: Limits)
    requires lim.maxDigits >= 1 && lim.maxFactors >= 1 && lim.maxDigits * lim.maxFactors >= 1
    requires forall i :: 0 <= i < |ts| ==> TermOk(ts[i], lim)
    ensures NumeralsOnly(ts)
    ensures 0 <= SumOfProducts(ts) <= |ts| * Pow10(lim.maxDigits * lim.maxFactors)
  {
    var b := Pow10(lim.maxDigits * lim.maxFactors);
    var ps := seq(|ts|, i requires 0 <= i < |ts| => Prod(Literals(Factors(ts[i]))));
    forall i | 0 <= i < |ts|
      ensures 0 <= ps[i] <= b
    {
      TermBound(ts[i], lim);
    }
    assert SumOfProducts(ts) == Sum(ps);
    SumBound(ps, b);
  }

  /** The limits bound the result and not only the text: an accepted
      expression is worth at most
      `max_terms * 10^(max_digits_per_number * max_factors)`. */
  lemma ResultBound(e: string, lim: Limits)
    requires Evaluate(e, lim).Success?
    ensures lim.maxTerms >= 1 && lim.maxFactors >= 1 && lim.maxDigits >= 1
    ensures lim.maxDigits * lim.maxFactors >= 1
    ensures Evaluate(e, lim).value <= lim.maxTerms * Pow10(lim.maxDigits * lim.maxFactors)
  {
    var ts := Terms(e);
    assert Accepted(e, lim) && Evaluate(e, lim).value == SumOfProducts(ts);
    TermBound(ts[0], lim);
    SumOfProductsBound(ts, lim);
    var b := Pow10(lim.maxDigits * lim.maxFactors);
    MulLe(|ts|, b, lim.maxTerms, b);
  }

  /** With the default limits a result is below `10^4300`, so its decimal
      text is within CPython's conversion limit: 128 terms of at most
      `10^768` each. */
  lemma DefaultResultBelowIntLimit(e: string)
    requires Evaluate(e, DefaultLimits).Success?
    ensures 0 <= Evaluate(e, DefaultLimits).value < Pow10(IntMaxStrDigits)
  {
    ResultBound(e, DefaultLimits);
    DefaultCapBelowIntLimit(Evaluate(e, DefaultLimits).value);
  }

  /** `128 * 10^768 < 10^771 <= 10^4300`. */
  lemma DefaultCapBelowIntLimit(v: int)
    requires v <= 128 * Pow10(768)
    ensures v < Pow10(IntMaxStrDigits)
  {
    Pow10Add(3, 768);
    assert Pow10(3) == 1000;
    Pow10Monotone(771, IntMaxStrDigits);
  }

  /** When every factor is a digit run, the term loop fails with "too many
      factors" iff the first failing term has too many factors, and with
      "literal too long" iff it has few enough. */
  lemma LastGuards(ts: seq<string>, lim: Limits)
    requires NumeralsOnly(ts)
    ensures EvalTerms(ts, lim) == Failure(TooManyFactors) <==>
      FirstBadTerm(ts, lim) < |ts| && |Factors(ts[FirstBadTerm(ts, lim)])| > lim.maxFactors
    ensures EvalTerms(ts, lim) == Failure(LiteralTooLong) <==>
      FirstBadTerm(ts, lim) < |ts| && |Factors(ts[FirstBadTerm(ts, lim)])| <= lim.maxFactors
  {
    var k := FirstBadTerm(ts, lim);
    var r := EvalTerms(ts, lim);
    if k < |ts| {
      assert !TermOk(ts[k], lim) by {
        assert !TermChecks(ts, lim)[k];
      }
      assert r.Failure?;
      assert r == EvalTerm(ts[k], lim);
      assert AllNumerals(Factors(ts[k]));
      NumeralTermFails(ts[k], lim);
    } else {
      assert forall i :: 0 <= i < |ts| ==> TermOk(ts[i], lim) by {
        assert forall i :: 0 <= i < |ts| ==> TermChecks(ts, lim)[i];
      }
    }
  }

  /** A term of digit runs that fails its guards fails with "too many
      factors" when it has more factors than the cap, otherwise with "literal
      too long". */
  lemma NumeralTermFails(t: string, lim: Limits)
    requires AllNumerals(Factors(t)) && !TermOk(t, lim)
    ensures EvalTerm(t, lim) ==
      if |Factors(t)| > lim.maxFactors then Failure(TooManyFactors) else Failure(LiteralTooLong)
  {
    var fs := Factors(t);
    assert forall j :: 0 <= j < |fs| ==> fs[j] != "" by {
      forall j | 0 <= j < |fs|
        ensures fs[j] != ""
      {
        assert IsNumeral(fs[j]);
      }
    }
  }


  /** `safe_eval_addmul(e, max_len=…, …)` (run_dummymodule.py:97-159). */
  function Evaluate(e: string, lim: Limits): (r: Result<int, EvalError>)
    ensures r == Failure(InvalidLength) <==> !LengthOk(e, lim)
    ensures r == Failure(IllegalCharacters) <==> LengthOk(e, lim) && !AllAllowed(e)
    ensures r == Failure(InvalidStructure) <==>
      LengthOk(e, lim) && AllAllowed(e) && !WellStructured(e)
    ensures r == Failure(InvalidStructure) <==>
      LengthOk(e, lim) && AllAllowed(e) && !PatternMatches(e)
    ensures r == Failure(TooManyTerms) <==>
      LengthOk(e, lim) && AllAllowed(e) && WellStructured(e) && |Terms(e)| > lim.maxTerms
    ensures r.Success? <==> Accepted(e, lim)
    ensures r.Success? ==> NumeralsOnly(Terms(e)) && r.value == SumOfProducts(Terms(e))
    ensures r.Success? ==> r.value >= 0
    ensures r != Failure(EmptyFactor) && r != Failure(NonDigit)
    ensures r == Failure(TooManyFactors) <==>
      && Screened(e, lim)
      && FirstBadTerm(Terms(e), lim) < |Terms(e)|
      && |Factors(Terms(e)[FirstBadTerm(Terms(e), lim)])| > lim.maxFactors
    ensures r == Failure(LiteralTooLong) <==>
      && Screened(e, lim)
      && FirstBadTerm(Terms(e), lim) < |Terms(e)|
      && |Factors(Terms(e)[FirstBadTerm(Terms(e), lim)])| <= lim.maxFactors
  {
    if !LengthOk(e, lim) then Failure(InvalidLength)
    else if !AllAllowed(e) then Failure(IllegalCharacters)
    else
      PatternOnWhitelist(e);
      if !WellStructured(e) then Failure(InvalidStructure)
      else
        var ts := Terms(e);
        if |ts| > lim.maxTerms then Failure(TooManyTerms)
        else
          StructuredFactorsAreNumerals(e);
          LastGuards(ts, lim);
          EvalTerms(ts, lim)
  }

  // ---------------------------------------------------------------------------
  // Properties

  /** Once the structural check passes, every factor the later splits produce
      is a non-empty digit run, so the "empty factor" and "non-digit in number"
      guards can never fire. */
  lemma StructuredFactorsAreNumerals(e: string)
    requires WellStructured(e)
    ensures NumeralsOnly(Terms(e))
  {
    var s := Trim(e);
    TrimKeepsAccepting(e);
    var raws := SplitAt(s, '+');
    SplitKeepsAccepting(Pre, s, '+');
    forall i | 0 <= i < |raws|
      ensures AllNumerals(Factors(Terms(e)[i]))
    {
      TermFactorsAreNumerals(raws[i]);
    }
  }

  /** The factors of one accepted piece between two `+` are digit runs. */
  lemma TermFactorsAreNumerals(raw: string)
    requires '+' !in raw
    requires WellStructured(raw)
    ensures AllNumerals(Factors(Trim(raw)))
  {
    var t := Trim(raw);
    TrimKeepsAccepting(raw);
    TrimAvoids(raw, '+');
    var pieces := SplitAt(t, '*');
    SplitKeepsAccepting(Pre, t, '*');
    SplitAtAvoids(t, '*', '+');
    forall j | 0 <= j < |pieces|
      ensures IsNumeral(Factors(t)[j])
    {
      FactorIsNumeral(pieces[j]);
    }
  }

  /** An accepted piece between operators, stripped, is a digit run. */
  lemma FactorIsNumeral(p: string)
    requires '+' !in p && '*' !in p
    requires WellStructured(p)
    ensures IsNumeral(Trim(p))
  {
    TrimKeepsAccepting(p);
    TrimAvoids(p, '+');
    TrimAvoids(p, '*');
    PieceIsNumeral(Trim(p));
  }
}
