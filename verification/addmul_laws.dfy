/** Laws of the evaluator that relate several calls or connect it with an
    independent description: a sum of products written out as text evaluates
    back to its arithmetic value, and the character whitelist is what keeps
    non-ASCII digits away from the structural pattern. */
module AddMulLaws {
  import opened Wrappers
  import opened Text
  import opened Structure
  import opened AddMul

  /** A sum of products given by its digit runs: at least one term, each
      with at least one factor. */
  predicate IsSop(tss: seq<seq<string>>) {
    && |tss| >= 1
    && forall i :: 0 <= i < |tss| ==> |tss[i]| >= 1 && AllNumerals(tss[i])
  }

  /** The text of one term: its factors joined by `*`. */
  function TermText(fs: seq<string>): string
    requires |fs| >= 1
  {
    Join(fs, '*')
  }

  /** The texts of all terms. */
  function TermTexts(tss: seq<seq<string>>): (ts: seq<string>)
    requires IsSop(tss)
    ensures |ts| == |tss|
  {
    seq(|tss|, i requires 0 <= i < |tss| => TermText(tss[i]))
  }

  /** The expression `f11*f12*…+f21*…+…` with no whitespace. */
  function Render(tss: seq<seq<string>>): string
    requires IsSop(tss)
  {
    Join(TermTexts(tss), '+')
  }

  /** The arithmetic value of a sum of products: `*` inside a term, `+`
      between terms. */
  function SopValue(tss: seq<seq<string>>): int
    requires IsSop(tss)
  {
    Sum(seq(|tss|, i requires 0 <= i < |tss| => Prod(Literals(tss[i]))))
  }

  /** Every limit except the length limit is respected. */
  predicate SopWithin(tss: seq<seq<string>>, lim: Limits) {
    && |tss| <= lim.maxTerms
    && forall i :: 0 <= i < |tss| ==>
         && |tss[i]| <= lim.maxFactors
         && forall j :: 0 <= j < |tss[i]| ==> |tss[i][j]| <= lim.maxDigits
  }

  // ---------------------------------------------------------------------------
  // The round trip

  /** Evaluating the text of a sum of products splits it back into the same
      terms and factors, accepts it exactly when the limits allow, and yields
      its arithmetic value: multiplication binds tighter than addition. */
  lemma RenderRoundTrip(tss: seq<seq<string>>, lim: Limits)
    requires IsSop(tss)
    ensures Terms(Render(tss)) == TermTexts(tss)
    ensures forall i :: 0 <= i < |tss| ==> Factors(Terms(Render(tss))[i]) == tss[i]
    ensures Evaluate(Render(tss), lim).Success? <==>
      |Render(tss)| <= lim.maxLen && SopWithin(tss, lim)
    ensures Evaluate(Render(tss), lim).Success? ==>
      Evaluate(Render(tss), lim).value == SopValue(tss)
  {
    RenderShape(tss);
    EvaluateSplitsInto(Render(tss), TermTexts(tss), tss, lim);
  }

  /** The outcome of evaluating an expression that passes the whitelist and
      the structural check, given the terms and factors it splits into. */
  lemma EvaluateSplitsInto(e: string, ts: seq<string>, tss: seq<seq<string>>, lim: Limits)
    requires IsSop(tss) && |ts| == |tss|
    requires AllAllowed(e) && WellStructured(e)
    requires Terms(e) == ts
    requires forall i :: 0 <= i < |ts| ==> Factors(ts[i]) == tss[i]
    ensures Evaluate(e, lim).Success? <==> LengthOk(e, lim) && SopWithin(tss, lim)
    ensures Evaluate(e, lim).Success? ==> Evaluate(e, lim).value == SopValue(tss)
  {
    TermsWithin(ts, tss, lim);
    if Evaluate(e, lim).Success? {
      SumOfProductsIs(ts, tss);
    }
  }

  /** Terms whose factors are the given digit runs pass their guards exactly
      when the runs respect the factor and digit limits. */
  lemma TermsWithin(ts: seq<string>, tss: seq<seq<string>>, lim: Limits)
    requires IsSop(tss) && |ts| == |tss|
    requires forall i :: 0 <= i < |ts| ==> Factors(ts[i]) == tss[i]
    ensures (forall i :: 0 <= i < |ts| ==> TermOk(ts[i], lim)) <==>
      forall i :: 0 <= i < |tss| ==>
        |tss[i]| <= lim.maxFactors && forall j :: 0 <= j < |tss[i]| ==> |tss[i][j]| <= lim.maxDigits
  {
  }

  /** The value the evaluator computes from such terms is the arithmetic
      value of the digit runs. */
  lemma SumOfProductsIs(ts: seq<string>, tss: seq<seq<string>>)
    requires IsSop(tss) && |ts| == |tss|
    requires forall i :: 0 <= i < |ts| ==> Factors(ts[i]) == tss[i]
    requires NumeralsOnly(ts)
    ensures SumOfProducts(ts) == SopValue(tss)
  {
    var parts := seq(|tss|, i requires 0 <= i < |tss| => Prod(Literals(tss[i])));
    var parts' := seq(|ts|, i requires 0 <= i < |ts| => Prod(Literals(Factors(ts[i]))));
    assert parts == parts';
  }

  /** The text of a sum of products passes the whitelist and the structural
      check, and splits back into its terms and factors. */
  lemma RenderShape(tss: seq<seq<string>>)
    requires IsSop(tss)
    ensures |Render(tss)| > 0
    ensures AllAllowed(Render(tss))
    ensures WellStructured(Render(tss))
    ensures Terms(Render(tss)) == TermTexts(tss)
    ensures forall i :: 0 <= i < |tss| ==> Factors(TermTexts(tss)[i]) == tss[i]
  {
    RenderChars(tss);
    RenderTerms(tss);
    forall i | 0 <= i < |tss|
      ensures Factors(TermTexts(tss)[i]) == tss[i]
    {
      TermTextFactors(tss[i]);
    }
  }

  /** The text is non-empty, made of digits and operators, and scans as a
      number. */
  lemma RenderChars(tss: seq<seq<string>>)
    requires IsSop(tss)
    ensures |Render(tss)| > 0
    ensures forall k :: 0 <= k < |Render(tss)| ==> IsSopChar(Render(tss)[k])
    ensures Run(Pre, Render(tss)) == InNum
  {
    var texts := TermTexts(tss);
    forall i | 0 <= i < |texts|
      ensures |texts[i]| > 0 && Run(Pre, texts[i]) == InNum
      ensures forall k :: 0 <= k < |texts[i]| ==> IsSopChar(texts[i][k])
    {
      TermTextChars(tss[i]);
      StarTextFacts(texts[i]);
      TermTextRun(tss[i]);
    }
    JoinNumbers(texts, '+');
  }

  /** Joining texts that scan as numbers by an operator. */
  lemma JoinNumbers(texts: seq<string>, sep: char)
    requires |texts| >= 1 && IsOp(sep)
    requires forall i :: 0 <= i < |texts| ==> |texts[i]| > 0 && Run(Pre, texts[i]) == InNum
    requires forall i, k :: 0 <= i < |texts| && 0 <= k < |texts[i]| ==> IsSopChar(texts[i][k])
    ensures |Join(texts, sep)| > 0
    ensures forall k :: 0 <= k < |Join(texts, sep)| ==> IsSopChar(Join(texts, sep)[k])
    ensures Run(Pre, Join(texts, sep)) == InNum
  {
    JoinChars(texts, sep, IsSopChar);
    RunJoin(texts, sep);
    JoinNonEmpty(texts, sep);
  }

  /** Splitting the text at `+` gives back the term texts. */
  lemma RenderTerms(tss: seq<seq<string>>)
    requires IsSop(tss)
    ensures Terms(Render(tss)) == TermTexts(tss)
  {
    var texts := TermTexts(tss);
    forall i | 0 <= i < |texts|
      ensures forall k :: 0 <= k < |texts[i]| ==> IsStarChar(texts[i][k])
    {
      TermTextChars(tss[i]);
    }
    TermsOfJoin(texts);
  }

  /** Splitting a `+`-join of texts made of digits and `*` yields the texts. */
  lemma TermsOfJoin(texts: seq<string>)
    requires |texts| >= 1
    requires forall i, k :: 0 <= i < |texts| && 0 <= k < |texts[i]| ==> IsStarChar(texts[i][k])
    ensures Terms(Join(texts, '+')) == texts
  {
    forall i | 0 <= i < |texts|
      ensures '+' !in texts[i] && Trim(texts[i]) == texts[i]
      ensures forall k :: 0 <= k < |texts[i]| ==> IsSopChar(texts[i][k])
    {
      StarTextFacts(texts[i]);
    }
    JoinChars(texts, '+', IsSopChar);
    SopCharsNoSpaces(Join(texts, '+'));
    SplitTrimJoin(texts, '+');
  }

  /** The characters a rendered expression is made of. */
  predicate IsSopChar(c: char) {
    IsDigit(c) || IsOp(c)
  }

  /** One term's text is non-empty and made of digits and `*` only. */
  lemma TermTextChars(fs: seq<string>)
    requires |fs| >= 1 && AllNumerals(fs)
    ensures |TermText(fs)| > 0
    ensures forall k :: 0 <= k < |TermText(fs)| ==> IsStarChar(TermText(fs)[k])
  {
    JoinChars(fs, '*', IsStarChar);
    JoinNonEmpty(fs, '*');
  }

  /** What text made of digits and `*` is not. */
  lemma StarTextFacts(t: string)
    requires forall k :: 0 <= k < |t| ==> IsStarChar(t[k])
    ensures '+' !in t
    ensures forall k :: 0 <= k < |t| ==> IsSopChar(t[k])
    ensures Trim(t) == t
  {
    StarTextNoPlus(t);
    SopCharsNoSpaces(t);
  }

  lemma StarTextNoPlus(t: string)
    requires forall k :: 0 <= k < |t| ==> IsStarChar(t[k])
    ensures '+' !in t
  {
    assert forall k :: 0 <= k < |t| ==> t[k] != '+';
  }

  /** One term's text scans as a number. */
  lemma TermTextRun(fs: seq<string>)
    requires |fs| >= 1 && AllNumerals(fs)
    ensures Run(Pre, TermText(fs)) == InNum
  {
    forall j | 0 <= j < |fs|
      ensures Run(Pre, fs[j]) == InNum
    {
      RunNumeral(Pre, fs[j]);
    }
    RunJoin(fs, '*');
  }

  /** One term's text splits back into its factors. */
  lemma TermTextFactors(fs: seq<string>)
    requires |fs| >= 1 && AllNumerals(fs)
    ensures Factors(TermText(fs)) == fs
  {
    forall j | 0 <= j < |fs|
      ensures '*' !in fs[j] && Trim(fs[j]) == fs[j]
    {
      assert forall k :: 0 <= k < |fs[j]| ==> IsSopChar(fs[j][k]);
      SopCharsNoSpaces(fs[j]);
    }
    SplitTrimJoin(fs, '*');
  }

  predicate IsStarChar(c: char) {
    IsDigit(c) || c == '*'
  }

  // ---------------------------------------------------------------------------
  // Helpers about joined text

  lemma {:induction false} JoinNonEmpty(pieces: seq<string>, sep: char)
    requires |pieces| >= 1 && |pieces[0]| >= 1
    ensures |Join(pieces, sep)| >= 1
  {
    if |pieces| > 1 {
      assert Join(pieces, sep) == pieces[0] + [sep] + Join(pieces[1..], sep);
    }
  }

  /** A property of every character of the pieces and of the separator holds
      of every character of their join. */
  lemma {:induction false} JoinChars(pieces: seq<string>, sep: char, P: char -> bool)
    requires |pieces| >= 1 && P(sep)
    requires forall i, k :: 0 <= i < |pieces| && 0 <= k < |pieces[i]| ==> P(pieces[i][k])
    ensures forall k :: 0 <= k < |Join(pieces, sep)| ==> P(Join(pieces, sep)[k])
    decreases |pieces|
  {
    if |pieces| > 1 {
      JoinChars(pieces[1..], sep, P);
      var rest := Join(pieces[1..], sep);
      var s := Join(pieces, sep);
      assert s == pieces[0] + [sep] + rest;
      forall k | 0 <= k < |s|
        ensures P(s[k])
      {
        if k < |pieces[0]| {
          assert s[k] == pieces[0][k];
        } else if k > |pieces[0]| {
          assert s[k] == rest[k - |pieces[0]| - 1];
        }
      }
    }
  }

  /** Pieces that each scan as a number join into text that scans as a
      number: every operator returns the scanner to `Pre`. */
  lemma {:induction false} RunJoin(pieces: seq<string>, sep: char)
    requires |pieces| >= 1 && IsOp(sep)
    requires forall i :: 0 <= i < |pieces| ==> Run(Pre, pieces[i]) == InNum
    ensures Run(Pre, Join(pieces, sep)) == InNum
    decreases |pieces|
  {
    if |pieces| > 1 {
      RunJoin(pieces[1..], sep);
      RunConcat(Pre, pieces[0] + [sep], Join(pieces[1..], sep));
      RunConcat(Pre, pieces[0], [sep]);
    }
  }

  /** A digit run read from `Pre` or from inside a number ends inside it. */
  lemma {:induction false} RunNumeral(q: Scan, f: string)
    requires q == Pre || q == InNum
    requires IsNumeral(f)
    ensures Run(q, f) == InNum
    decreases |f|
  {
    if |f| > 1 {
      RunNumeral(InNum, f[1..]);
    }
  }

  /** Text made of digits and operators has nothing to strip. */
  lemma SopCharsNoSpaces(s: string)
    requires forall k :: 0 <= k < |s| ==> IsSopChar(s[k])
    ensures Trim(s) == s
  {
    assert forall k :: 0 <= k < |s| ==> !IsSpace(s[k]);
  }

  /** Splitting a join of separator-free, already stripped pieces and
      stripping the results gives the pieces back. */
  lemma SplitTrimJoin(pieces: seq<string>, sep: char)
    requires |pieces| >= 1
    requires forall i :: 0 <= i < |pieces| ==> sep !in pieces[i] && Trim(pieces[i]) == pieces[i]
    ensures SplitTrim(Join(pieces, sep), sep) == pieces
  {
    SplitAtJoin(pieces, sep);
  }

  // ---------------------------------------------------------------------------
  // Examples

  /** `2+3*4` is 14: the product is formed before the sum. */
  lemma PrecedenceExample()
    ensures Evaluate("2+3*4", DefaultLimits) == Success(14)
  {
    var tss := [["2"], ["3", "4"]];
    PrecedenceParts();
    assert SopWithin(tss, DefaultLimits);
    RenderRoundTrip(tss, DefaultLimits);
  }

  /** `2+3*4` renders the terms `[2]` and `[3, 4]`, whose value is 14. */
  lemma PrecedenceParts()
    ensures var tss := [["2"], ["3", "4"]];
      IsSop(tss) && Render(tss) == "2+3*4" && SopValue(tss) == 14
  {
    var tss := [["2"], ["3", "4"]];
    assert IsSop(tss) by {
      assert AllNumerals(tss[0]) && AllNumerals(tss[1]);
    }
    var texts := TermTexts(tss);
    assert texts == ["2", "3*4"] by {
      assert texts[0] == TermText(["2"]) == "2";
      assert texts[1] == TermText(["3", "4"]) == "3" + "*" + "4";
      assert "3" + "*" + "4" == "3*4";
      assert |texts| == 2;
    }
    assert Render(tss) == "2+3*4" by {
      assert Join(["2", "3*4"], '+') == "2" + "+" + "3*4";
    }
    assert SopValue(tss) == 14 by {
      assert Prod(Literals(tss[0])) == 2 by {
        assert Literals(tss[0]) == [2];
        assert Prod([2]) == 2 * Prod([]);
      }
      assert Prod(Literals(tss[1])) == 12 by {
        assert Literals(tss[1]) == [3, 4];
        assert [3, 4][1..] == [4];
        assert Prod([4]) == 4 * Prod([]);
      }
      var parts := seq(2, i requires 0 <= i < 2 => Prod(Literals(tss[i])));
      assert parts == [2, 12];
      assert [2, 12][1..] == [12];
      assert Sum([12]) == 12 + Sum([]);
    }
  }

  /** With one factor allowed per term, `1234567*1` is refused for its
      factor count: that guard runs before the digit count of `1234567`. */
  lemma FactorCountFirstExample()
    ensures Evaluate("1234567*1", Limits(512, 128, 1, 6)) == Failure(TooManyFactors)
  {
    var lim := Limits(512, 128, 1, 6);
    var tss := [["1234567", "1"]];
    var e := "1234567*1";
    FactorCountParts();
    RenderShape(tss);
    assert Factors(Terms(e)[0]) == tss[0];
    assert !TermChecks(Terms(e), lim)[0];
    assert FirstBadTerm(Terms(e), lim) == 0;
    assert Screened(e, lim);
  }

  /** `1234567*1` renders the single term `[1234567, 1]`. */
  lemma FactorCountParts()
    ensures var tss := [["1234567", "1"]];
      IsSop(tss) && Render(tss) == "1234567*1"
  {
    var tss := [["1234567", "1"]];
    assert IsSop(tss) by {
      assert AllNumerals(tss[0]);
    }
    var texts := TermTexts(tss);
    assert texts == ["1234567*1"] by {
      assert texts[0] == TermText(["1234567", "1"]) == "1234567" + "*" + "1";
      assert "1234567" + "*" + "1" == "1234567*1";
    }
  }

  /** With one factor allowed per term, `1234567+1*1` is refused for the
      literal `1234567`: the first term fails its digit count before the
      second term's factor count is looked at. */
  lemma FirstTermFirstExample()
    ensures Evaluate("1234567+1*1", Limits(512, 128, 1, 6)) == Failure(LiteralTooLong)
  {
    var lim := Limits(512, 128, 1, 6);
    var tss := [["1234567"], ["1", "1"]];
    var e := "1234567+1*1";
    FirstTermParts();
    RenderShape(tss);
    assert Factors(Terms(e)[0]) == tss[0];
    assert !TermChecks(Terms(e), lim)[0];
    assert FirstBadTerm(Terms(e), lim) == 0;
    assert Screened(e, lim);
  }

  /** `1234567+1*1` renders the terms `[1234567]` and `[1, 1]`. */
  lemma FirstTermParts()
    ensures var tss := [["1234567"], ["1", "1"]];
      IsSop(tss) && Render(tss) == "1234567+1*1"
  {
    var tss := [["1234567"], ["1", "1"]];
    assert IsSop(tss) by {
      assert AllNumerals(tss[0]) && AllNumerals(tss[1]);
    }
    var texts := TermTexts(tss);
    assert texts == ["1234567", "1*1"] by {
      assert texts[0] == TermText(["1234567"]) == "1234567";
      assert texts[1] == TermText(["1", "1"]) == "1" + "*" + "1";
      assert "1" + "*" + "1" == "1*1";
      assert |texts| == 2;
    }
    assert Render(tss) == "1234567+1*1" by {
      assert Join(["1234567", "1*1"], '+') == "1234567" + "+" + "1*1";
    }
  }

  /** ` 2 +\t3 * 4 ` is 14: the whitespace around numbers and operators is
      stripped away before the literals are read. */
  lemma SpacedExample()
    ensures Evaluate(" 2 +\t3 * 4 ", DefaultLimits) == Success(14)
  {
    var e := " 2 +\t3 * 4 ";
    var tss := [["2"], ["3", "4"]];
    SpacedSop();
    SpacedChecks();
    SpacedTermSplit();
    SpacedFactors();
    EvaluatesTo(e, ["2", "3 * 4"], tss, DefaultLimits);
  }

  /** The terms `[2]` and `[3, 4]` are within the default limits and are worth 14. */
  lemma SpacedSop()
    ensures var tss := [["2"], ["3", "4"]];
      IsSop(tss) && SopWithin(tss, DefaultLimits) && SopValue(tss) == 14
  {
    PrecedenceParts();
  }

  /** An expression that passes the length, whitelist and structural checks
      and splits into digit runs within the limits evaluates to their value. */
  lemma EvaluatesTo(e: string, ts: seq<string>, tss: seq<seq<string>>, lim: Limits)
    requires IsSop(tss) && |ts| == |tss|
    requires AllAllowed(e) && WellStructured(e) && LengthOk(e, lim) && SopWithin(tss, lim)
    requires Terms(e) == ts
    requires forall i :: 0 <= i < |ts| ==> Factors(ts[i]) == tss[i]
    ensures Evaluate(e, lim) == Success(SopValue(tss))
  {
    EvaluateSplitsInto(e, ts, tss, lim);
  }

  /** ` 2 +\t3 * 4 ` passes the whitelist and the structural check. */
  lemma SpacedChecks()
    ensures AllAllowed(" 2 +\t3 * 4 ") && WellStructured(" 2 +\t3 * 4 ")
  {
    var e := " 2 +\t3 * 4 ";
    assert AllAllowed(e) by {
      forall i | 0 <= i < |e|
        ensures IsAllowed(e[i])
      {
      }
    }
    var a, b, c := " 2 ", "+\t3 ", "* 4 ";
    assert e == a + b + c;
    RunConcat(Pre, a + b, c);
    RunConcat(Pre, a, b);
    SpacedRuns();
  }

  /** The scanner reads each of ` 2 `, `+\t3 ` and `* 4 ` back to the state
      after a number's trailing whitespace. */
  lemma SpacedRuns()
    ensures Run(Pre, " 2 ") == Post
    ensures Run(Post, "+\t3 ") == Post
    ensures Run(Post, "* 4 ") == Post
  {
    assert Run(Pre, " 2 ") == Run(Pre, "2 ") == Run(InNum, " ") == Run(Post, "");
    assert Run(Post, "+\t3 ") == Run(Pre, "\t3 ") == Run(Pre, "3 ") == Run(InNum, " ");
    assert Run(Post, "* 4 ") == Run(Pre, " 4 ") == Run(Pre, "4 ") == Run(InNum, " ");
  }

  /** The terms `2` and `3 * 4` of ` 2 +\t3 * 4 ` have the factors `2`, and
      `3` and `4`. */
  lemma SpacedFactors()
    ensures var ts, tss := ["2", "3 * 4"], [["2"], ["3", "4"]];
      forall i :: 0 <= i < 2 ==> Factors(ts[i]) == tss[i]
  {
    var ts, tss := ["2", "3 * 4"], [["2"], ["3", "4"]];
    forall i | 0 <= i < 2
      ensures Factors(ts[i]) == tss[i]
    {
      if i == 0 {
        NumeralSplits("2", '*');
      } else {
        SpacedFactorSplit();
      }
    }
  }

  /** ` 2 +\t3 * 4 ` splits into the terms `2` and `3 * 4`. */
  lemma SpacedTermSplit()
    ensures Terms(" 2 +\t3 * 4 ") == ["2", "3 * 4"]
  {
    assert '+' !in "2 " && '+' !in "\t3 * 4";
    SpacedTrim();
    SplitPieces("2 ", "\t3 * 4", '+');
    TrimsOfTerms();
  }

  /** Stripping ` 2 +\t3 * 4 ` removes the outer spaces only. */
  lemma SpacedTrim()
    ensures Trim(" 2 +\t3 * 4 ") == "2 " + "+" + "\t3 * 4"
  {
    assert " 2 +\t3 * 4 " == " " + ("2 " + "+" + "\t3 * 4") + " ";
    TrimPadded(" ", "2 " + "+" + "\t3 * 4", " ");
  }

  lemma SpacedFactorSplit()
    ensures Factors("3 * 4") == ["3", "4"]
  {
    assert "3 * 4" == "3 " + "*" + " 4";
    assert '*' !in "3 " && '*' !in " 4";
    SplitPieces("3 ", " 4", '*');
    TrimsOfFactors();
  }

  /** The terms of ` 2 +\t3 * 4 `, stripped. */
  lemma TrimsOfTerms()
    ensures Trim("2 ") == "2" && Trim("\t3 * 4") == "3 * 4"
  {
    assert "2 " == "" + "2" + " ";
    TrimPadded("", "2", " ");
    assert "\t3 * 4" == "\t" + "3 * 4" + "";
    TrimPadded("\t", "3 * 4", "");
  }

  /** The factors of `3 * 4`, stripped. */
  lemma TrimsOfFactors()
    ensures Trim("3 ") == "3" && Trim(" 4") == "4"
  {
    assert "3 " == "" + "3" + " ";
    TrimPadded("", "3", " ");
    assert " 4" == " " + "4" + "";
    TrimPadded(" ", "4", "");
  }

  /** Splitting `a`, `sep`, `b` at `sep`, with `a` and `b` free of it, gives
      the two stripped pieces. */
  lemma SplitPieces(a: string, b: string, sep: char)
    requires sep !in a && sep !in b
    ensures SplitTrim(a + [sep] + b, sep) == [Trim(a), Trim(b)]
  {
    assert Join([a, b], sep) == a + [sep] + b;
    SplitAtJoin([a, b], sep);
  }

  /** `007*1+0` is 7: leading zeros do not change a literal. */
  lemma LeadingZerosExample()
    ensures Evaluate("007*1+0", DefaultLimits) == Success(7)
  {
    var tss := [["007", "1"], ["0"]];
    LeadingZerosParts();
    assert SopWithin(tss, DefaultLimits);
    RenderRoundTrip(tss, DefaultLimits);
  }

  /** `007*1+0` renders the terms `[007, 1]` and `[0]`, whose value is 7. */
  lemma LeadingZerosParts()
    ensures var tss := [["007", "1"], ["0"]];
      IsSop(tss) && Render(tss) == "007*1+0" && SopValue(tss) == 7
  {
    var tss := [["007", "1"], ["0"]];
    assert IsSop(tss) by {
      assert AllNumerals(tss[0]) && AllNumerals(tss[1]);
    }
    var texts := TermTexts(tss);
    assert texts == ["007*1", "0"] by {
      assert texts[0] == TermText(["007", "1"]) == "007" + "*" + "1";
      assert "007" + "*" + "1" == "007*1";
      assert texts[1] == TermText(["0"]) == "0";
      assert |texts| == 2;
    }
    assert Render(tss) == "007*1+0" by {
      assert Join(["007*1", "0"], '+') == "007*1" + "+" + "0";
    }
    assert SopValue(tss) == 7 by {
      assert DecimalValue("007") == 7 by {
        LeadingZero("07");
        LeadingZero("7");
        assert "007" == "0" + "07" && "07" == "0" + "7";
      }
      assert Prod(Literals(tss[0])) == 7 by {
        assert Literals(tss[0]) == [7, 1];
        assert [7, 1][1..] == [1];
        assert Prod([1]) == 1 * Prod([]);
      }
      assert Prod(Literals(tss[1])) == 0 by {
        assert Literals(tss[1]) == [0];
      }
      var parts := seq(2, i requires 0 <= i < 2 => Prod(Literals(tss[i])));
      assert parts == [7, 0];
      assert [7, 0][1..] == [0];
      assert Sum([0]) == 0 + Sum([]);
    }
  }

  /** Seven digits are refused whatever their value, even all zeros. */
  lemma LongLiteralExample()
    ensures Evaluate("0000000", DefaultLimits) == Failure(LiteralTooLong)
  {
    var e := "0000000";
    assert IsNumeral(e);
    SingleLiteral(e);
    assert Evaluate(e, DefaultLimits) == EvalTerms([e], DefaultLimits);
    assert EvalTerm(e, DefaultLimits) == EvalFactors([e], DefaultLimits);
  }

  /** A lone digit run is one term of one factor. */
  lemma SingleLiteral(e: string)
    requires IsNumeral(e)
    ensures AllAllowed(e) && WellStructured(e)
    ensures Terms(e) == [e] && Factors(e) == [e]
  {
    assert AllAllowed(e) by { NumeralAllowed(e); }
    assert WellStructured(e) by { RunNumeral(Pre, e); }
    assert Terms(e) == [e] by {
      NumeralTrimmed(e);
      NumeralSplits(e, '+');
    }
    assert Factors(e) == [e] by { NumeralSplits(e, '*'); }
  }

  /** A digit run splits into itself at either operator. */
  lemma NumeralSplits(e: string, sep: char)
    requires IsNumeral(e) && IsOp(sep)
    ensures SplitTrim(e, sep) == [e]
  {
    assert sep !in e by { NumeralNoOps(e); }
    SplitTrimWhole(e, sep);
    NumeralTrimmed(e);
  }

  /** A string without the separator splits into itself, stripped. */
  lemma SplitTrimWhole(e: string, sep: char)
    requires sep !in e
    ensures SplitTrim(e, sep) == [Trim(e)]
  {
    SplitAtFree(e, sep);
    var r := SplitTrim(e, sep);
    assert |r| == 1 && r[0] == Trim(e);
  }

  lemma NumeralNoOps(e: string)
    requires IsNumeral(e)
    ensures '+' !in e && '*' !in e
  {
    assert forall k :: 0 <= k < |e| ==> e[k] != '+' && e[k] != '*';
  }

  lemma NumeralAllowed(e: string)
    requires IsNumeral(e)
    ensures AllAllowed(e)
  {
  }

  lemma NumeralTrimmed(e: string)
    requires IsNumeral(e)
    ensures Trim(e) == e
  {
    assert forall k :: 0 <= k < |e| ==> IsStarChar(e[k]);
    StarTextFacts(e);
  }

  /** The whitelist runs before the structural check: `2-3` is refused for its
      character. */
  lemma IllegalBeforeStructure()
    ensures Evaluate("2-3", DefaultLimits) == Failure(IllegalCharacters)
  {
    assert !IsAllowed("2-3"[1]);
  }

  /** Two operators in a row, `2++3`, break the structure. */
  lemma DoubleOperatorExample()
    ensures Evaluate("2++3", DefaultLimits) == Failure(InvalidStructure)
  {
    var e := "2++3";
    assert AllAllowed(e) by {
      forall i | 0 <= i < |e|
        ensures IsAllowed(e[i])
      {
      }
    }
    assert !WellStructured(e) by {
      assert Run(Pre, e) == Run(InNum, "++3") == Run(Pre, "+3") == Run(Dead, "3") == Dead;
    }
    StructureRefused(e);
  }

  /** A leading operator, `+2`, breaks the structure: there is no unary
      plus. */
  lemma LeadingOperatorExample()
    ensures Evaluate("+2", DefaultLimits) == Failure(InvalidStructure)
  {
    var e := "+2";
    assert AllAllowed(e) by {
      forall i | 0 <= i < |e|
        ensures IsAllowed(e[i])
      {
      }
    }
    assert !WellStructured(e) by {
      assert Run(Pre, e) == Run(Dead, "2") == Dead;
    }
    StructureRefused(e);
  }

  /** A trailing operator, `2+`, breaks the structure: the last term is
      empty. */
  lemma TrailingOperatorExample()
    ensures Evaluate("2+", DefaultLimits) == Failure(InvalidStructure)
  {
    var e := "2+";
    assert AllAllowed(e) by {
      forall i | 0 <= i < |e|
        ensures IsAllowed(e[i])
      {
      }
    }
    assert !WellStructured(e) by {
      assert Run(Pre, e) == Run(InNum, "+") == Run(Pre, "") == Pre;
    }
    StructureRefused(e);
  }

  /** Two numbers separated only by whitespace, `1 2`, break the
      structure. */
  lemma AdjacentNumbersExample()
    ensures Evaluate("1 2", DefaultLimits) == Failure(InvalidStructure)
  {
    var e := "1 2";
    assert AllAllowed(e) by {
      forall i | 0 <= i < |e|
        ensures IsAllowed(e[i])
      {
      }
    }
    assert !WellStructured(e) by {
      assert Run(Pre, e) == Run(InNum, " 2") == Run(Post, "2") == Run(Dead, "") == Dead;
    }
    StructureRefused(e);
  }

  /** A short whitelisted expression the scanner rejects is refused for its
      structure under the default limits. */
  lemma StructureRefused(e: string)
    requires 0 < |e| <= 512 && AllAllowed(e) && !WellStructured(e)
    ensures Evaluate(e, DefaultLimits) == Failure(InvalidStructure)
  {
  }

  /** In a `str` pattern `\d` is any Unicode decimal digit, so `٣+1` (with
      ARABIC-INDIC DIGIT THREE) matches the structural pattern. The whitelist,
      which runs first, is what refuses it. */
  lemma UnicodeDigitExample()
    ensures PatternMatches("\U{663}+1")
    ensures !AllAllowed("\U{663}+1")
    ensures Evaluate("\U{663}+1", DefaultLimits) == Failure(IllegalCharacters)
  {
    var e := "\U{663}+1";
    assert IsDecimal(e[0]) && !IsAllowed(e[0]);
    assert PatternRun(Pre, e) == PatternRun(InNum, e[1..]);
    assert PatternRun(InNum, e[1..]) == PatternRun(Pre, e[2..]);
    assert PatternRun(Pre, e[2..]) == PatternRun(InNum, e[3..]);
  }
}
