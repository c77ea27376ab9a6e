/** The structural check of the evaluator, `re.fullmatch` against
    `\s*\d+(?:\s*[+*]\s*\d+)*\s*`, as a deterministic scanner, and what its
    acceptance says about the pieces the evaluator later splits out.
    In a `str` pattern `\d` is any Unicode decimal digit. The scanner `Run`
    reads only the ASCII digits as digits, so it is the pattern only on
    strings without other decimal digits, such as those that passed the
    whitelist before the check. `PatternRun` reads `\d` as the pattern does,
    and `PatternRunAscii` proves that the two agree on such strings. */
module Structure {
  import opened Text

  predicate IsOp(c: char) {
    c == '+' || c == '*'
  }

  /** The scanner's states. The pattern's language is a list of pieces
      separated by operators, each piece being whitespace, a digit run, then
      whitespace (the `\s*` after a number and the one before the next operator
      meet in the same piece). `Pre` is before the digits of a piece, `InNum`
      inside them, `Post` in the whitespace after them; `Dead` has rejected. */
  datatype Scan = Pre | InNum | Post | Dead

  function Step(q: Scan, c: char): Scan {
    match q
    case Pre => if IsSpace(c) then Pre else if IsDigit(c) then InNum else Dead
    case InNum =>
      if IsDigit(c) then InNum
      else if IsSpace(c) then Post
      else if IsOp(c) then Pre
      else Dead
    case Post => if IsSpace(c) then Post else if IsOp(c) then Pre else Dead
    case Dead => Dead
  }

  /** The state reached from `q` after reading all of `s`. */
  function Run(q: Scan, s: string): Scan
    decreases |s|
  {
    if |s| == 0 then q else Run(Step(q, s[0]), s[1..])
  }

  /** The pattern may end after the digits of a piece or after its trailing
      whitespace. */
  predicate Accepting(q: Scan) {
    q == InNum || q == Post
  }

  /** The structural check (run_dummymodule.py:129) on a string whose
      decimal digits are all ASCII, which is every string that reaches it. */
  predicate WellStructured(e: string) {
    Accepting(Run(Pre, e))
  }

  /** The pattern's own step: any Unicode decimal digit is a `\d`, and steps
      as an ASCII digit does. */
  function PatternStep(q: Scan, c: char): Scan {
    if IsDecimal(c) then Step(q, '0') else Step(q, c)
  }

  function PatternRun(q: Scan, s: string): Scan
    decreases |s|
  {
    if |s| == 0 then q else PatternRun(PatternStep(q, s[0]), s[1..])
  }

  /** `re.fullmatch` of the structural pattern, with `\d` as in a `str`
      pattern. */
  predicate PatternMatches(e: string) {
    Accepting(PatternRun(Pre, e))
  }

  /** On a string whose decimal digits are all ASCII, the scanner is the
      pattern. */
  lemma {:induction false} PatternRunAscii(q: Scan, s: string)
    requires forall i :: 0 <= i < |s| ==> IsDecimal(s[i]) ==> IsDigit(s[i])
    ensures PatternRun(q, s) == Run(q, s)
    decreases |s|
  {
    if |s| > 0 {
      assert PatternStep(q, s[0]) == Step(q, s[0]);
      PatternRunAscii(Step(q, s[0]), s[1..]);
    }
  }

  // ---------------------------------------------------------------------------
  // Properties of the scanner

  /** Once rejected, always rejected. */
  lemma {:induction false} RunDead(s: string)
    ensures Run(Dead, s) == Dead
    decreases |s|
  {
    if |s| > 0 {
      RunDead(s[1..]);
    }
  }

  /** Reading `a + b` is reading `a`, then `b`. */
  lemma {:induction false} RunConcat(q: Scan, a: string, b: string)
    ensures Run(q, a + b) == Run(Run(q, a), b)
    decreases |a|
  {
    if |a| > 0 {
      assert (a + b)[0] == a[0];
      assert (a + b)[1..] == a[1..] + b;
      RunConcat(Step(q, a[0]), a[1..], b);
    } else {
      assert a + b == b;
    }
  }

  /** Whitespace changes no state except that it ends a digit run. */
  lemma {:induction false} RunSpaces(q: Scan, w: string)
    requires AllSpaces(w)
    ensures q != InNum ==> Run(q, w) == q
    ensures q == InNum ==> Accepting(Run(q, w))
    decreases |w|
  {
    if |w| > 0 {
      RunSpaces(Step(q, w[0]), w[1..]);
    }
  }

  /** Stripping an accepted expression leaves it accepted. */
  lemma TrimKeepsAccepting(s: string)
    requires WellStructured(s)
    ensures WellStructured(Trim(s))
  {
    TrimLeftKeepsAccepting(s);
    TrimRightKeepsAccepting(TrimLeft(s));
  }

  /** Leading whitespace leaves the scanner in `Pre`. */
  lemma TrimLeftKeepsAccepting(s: string)
    requires WellStructured(s)
    ensures WellStructured(TrimLeft(s))
  {
    var l := TrimLeft(s);
    var lead := s[..|s| - |l|];
    assert s == lead + l;
    RunConcat(Pre, lead, l);
    RunSpaces(Pre, lead);
  }

  /** Trailing whitespace can only be read from an accepting state. */
  lemma TrimRightKeepsAccepting(l: string)
    requires WellStructured(l)
    ensures WellStructured(TrimRight(l))
  {
    var r := TrimRight(l);
    var trail := l[|r|..];
    assert l == r + trail;
    RunConcat(Pre, r, trail);
    var q := Run(Pre, r);
    RunSpaces(q, trail);
    if q == Dead {
      RunDead(trail);
    }
  }

  /** Splitting an accepted string at an operator yields accepted pieces:
      the first one read from the state the whole string started in, the
      others from `Pre`, since every operator resets the scanner to `Pre`. */
  lemma {:induction false} SplitKeepsAccepting(q: Scan, s: string, sep: char)
    requires IsOp(sep)
    requires Accepting(Run(q, s))
    ensures Accepting(Run(q, SplitAt(s, sep)[0]))
    ensures forall i :: 1 <= i < |SplitAt(s, sep)| ==> Accepting(Run(Pre, SplitAt(s, sep)[i]))
    decreases |s|
  {
    if |s| > 0 {
      var q' := Step(q, s[0]);
      if s[0] == sep {
        if q' == Dead {
          RunDead(s[1..]);
        }
        SplitKeepsAccepting(Pre, s[1..], sep);
      } else {
        SplitKeepsAccepting(q', s[1..], sep);
        var rest := SplitAt(s[1..], sep);
        assert ([s[0]] + rest[0])[1..] == rest[0];
      }
    }
  }

  /** After the whitespace that follows a number only whitespace may come
      before the end of an operator-free piece. */
  lemma {:induction false} PostOnlySpaces(z: string)
    requires '+' !in z && '*' !in z
    requires Accepting(Run(Post, z))
    ensures AllSpaces(z)
    decreases |z|
  {
    if |z| > 0 {
      if !IsSpace(z[0]) {
        RunDead(z[1..]);
      } else {
        PostOnlySpaces(z[1..]);
      }
    }
  }

  /** Inside a number, an operator-free piece that does not end in whitespace
      is digits to its end. */
  lemma {:induction false} InNumOnlyDigits(y: string)
    requires '+' !in y && '*' !in y
    requires Accepting(Run(InNum, y))
    requires |y| > 0 ==> !IsSpace(y[|y| - 1])
    ensures AllDigits(y)
    decreases |y|
  {
    if |y| > 0 {
      if IsDigit(y[0]) {
        InNumOnlyDigits(y[1..]);
      } else if IsSpace(y[0]) {
        PostOnlySpaces(y[1..]);
      } else {
        RunDead(y[1..]);
      }
    }
  }

  /** An accepted operator-free piece without surrounding whitespace is a
      digit run. */
  lemma PieceIsNumeral(x: string)
    requires '+' !in x && '*' !in x
    requires Accepting(Run(Pre, x))
    requires |x| > 0 ==> !IsSpace(x[0]) && !IsSpace(x[|x| - 1])
    ensures IsNumeral(x)
  {
    assert |x| > 0;
    if IsDigit(x[0]) {
      InNumOnlyDigits(x[1..]);
    } else {
      RunDead(x[1..]);
    }
  }
}
