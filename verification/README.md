# A Dafny model of `run_dummymodule.py`

`run_dummymodule.py` is a small command-line module for trying out a
benchmarking pipeline. It reads GNU-style `--flag value` arguments. It can be
told to fail on purpose, or to evaluate an arithmetic expression with a
guarded evaluator. It then creates an output directory, writes an output file,
and optionally exits with status 0. This project models four parts of it:

- **The evaluator** `safe_eval_addmul`
  - Modules `AddMul`, `AddMulLaws`, `Structure` and `Text`.
  - Its guards run in the source's order: length, whitelist `[0-9+*\s]`, the
    structural regular expression, the term count, empty factors, the factor
    count, digits only, and the digit count. Each `ValueError` is an
    `EvalError` tag.
  - An accepted expression evaluates to the sum of the products of its
    literals. Integers are unbounded, and CPython's cap of 4300 digits on
    `int()` of a string is left out (see "Left out").
  - The structural regular expression
    `\s*\d+(?:\s*[+*]\s*\d+)*\s*` is a four-state scanner.
    - In a `str` pattern `\d` is any Unicode decimal digit, such as the
      Arabic-Indic `٣`. `Structure.PatternMatches` reads it that way.
    - The evaluator uses `Structure.WellStructured`, which reads only ASCII
      digits. The two agree on every string that passes the whitelist, and
      no other string reaches the structural check.
    - The same holds for `\d+` on a factor (line 150).
  - `re.split(r"\s*\+\s*", …)` is a plain split whose pieces are stripped.
    The two are equal on the already-stripped strings the evaluator passes in.
  - Whitespace is Python's `str.isspace` / `\s` set, including the Unicode
    spaces.
- **The argument scanner** `parse_gnu_style_args` (module `GnuArgs`)
  - A loop method, proved equal to a recursive reference `Parse`.
  - Also proved equal to a direct description: the keys are exactly the `--`
    tokens, and each flag takes the value of its last occurrence.
- **`handle_args`** (module `Dispatch`)
  - Its decisions are a list of abstract actions, in order:
    - raise `RuntimeError`;
    - re-raise the evaluator's error;
    - the `TypeError` of `os.makedirs(None)`;
    - the `FileNotFoundError` of `os.makedirs("")`;
    - create a directory;
    - write a file;
    - the `IsADirectoryError` of opening a directory for writing;
    - `sys.exit(0)`.
  - The module-level `payload` is passed in and returned explicitly.
  - `kwargs.get` is read through a `Request` record.
  - The output path uses a model of POSIX `pathlib` (module `Paths`):
    parsing, `.parent`, `.name`, `/` and `.as_posix()`.
- **`serialize`** (module `Json`)
  - The exact text `json.dumps({"result": n, "error": None})` produces, for
    any `n` of at most 4300 digits (see "Left out" for longer ones).
  - A reader `ReadResult` that recovers `n` from that text.

`Dispatch.Handle` composes two parts:

- `Dispatch.Evaluation`, the call of the evaluator;
- `Dispatch.Proceed`, which decides the actions for any evaluation outcome.

`Dispatch.HandleArgs` applies `Handle` to a flag map. `Dispatch.RunModule`
applies it to a parsed command line with `payload` starting as `None`. The
properties of the actions are proved of `Proceed` for every evaluation outcome,
so they hold for `Handle` in particular.

`--fail` raises only when it has a value: a bare `--fail` is ignored.

## Model

| member | source | states |
|---|---|---|
| Text.JoinSplitAt | run_dummymodule.py:134 | Joining the pieces of a split at `+` with `+` gives back the string, so splitting loses no character |
| Text.SplitAtJoin | run_dummymodule.py:141 | Splitting a join of separator-free pieces gives back exactly those pieces |
| Text.LeadingZero | run_dummymodule.py:154-155 | `int(f)` ignores a leading zero: `"0" + s` has the value of `s` |
| Text.DecimalValueBound | run_dummymodule.py:152-155 | A literal of `k` digits is below `10^k` |
| Structure.TrimKeepsAccepting | run_dummymodule.py:129-132 | Stripping a string that the structural pattern accepts leaves it accepted |
| Structure.SplitKeepsAccepting | run_dummymodule.py:129-141 | Every piece of an accepted string split at an operator is accepted by the pattern from the right scanner state |
| Structure.PatternRunAscii | run_dummymodule.py:129 | On a string whose decimal digits are all ASCII, the pattern's scanner with Unicode `\d` takes the same steps as the ASCII one |
| Structure.PieceIsNumeral | run_dummymodule.py:129-151 | An accepted operator-free piece, without surrounding whitespace, is a non-empty digit run |
| AddMul.EvalFactors | run_dummymodule.py:147-155 | The factor loop succeeds iff every factor is a digit run within the digit cap. It then returns the product of their values, which is non-negative. A failure carries the error of the first factor that fails: "non-digit" if that factor is not a digit run, otherwise "literal too long" |
| AddMul.EvalTerm | run_dummymodule.py:141-157 | A term succeeds iff it passes all its guards, with the product of its factors as value. It fails with "empty factor" iff some factor is empty, and with "too many factors" iff none is empty and there are more than the cap. Otherwise its result is that of the factor loop |
| AddMul.EvalTerms | run_dummymodule.py:138-159 | The term loop succeeds iff every term passes its guards, and its value is the sum of products. A failure is exactly the failure of the first term that fails its guards, and is never "empty factor" or "non-digit" when all factors are digit runs |
| AddMul.Evaluate | run_dummymodule.py:97-159 | Each of the first four errors is returned iff every earlier guard passed and its own failed. "invalid structure" is returned iff the length and whitelist checks pass and the pattern, with `\d` read as any Unicode decimal digit, does not match. Past those, "too many factors" is returned iff the first term that fails has more factors than the cap, and "literal too long" iff it has no more. Success holds iff all guards pass. The value is then the non-negative sum of products of the literals. "empty factor" and "non-digit in number" are never returned |
| AddMul.LastGuards | run_dummymodule.py:139-153 | When every factor is a digit run, the term loop fails with "too many factors" iff the first failing term has more factors than the cap, and with "literal too long" iff it has no more |
| AddMul.LiteralsBelowCap | run_dummymodule.py:148-155 | Every factor of a term that passes the factor loop is below `10^max_digits_per_number` |
| AddMul.PatternOnWhitelist | run_dummymodule.py:126-130 | On a string that passes the whitelist, the structural pattern with Unicode `\d` matches iff the ASCII scanner accepts |
| AddMul.ConvertedWithinIntLimit | run_dummymodule.py:150-155 | With the digit cap at most 4300, every factor that reaches `int(f)` is an ASCII digit run of at most 4300 digits, within CPython's conversion limit |
| AddMul.ResultBound | run_dummymodule.py:136-159 | The limits bound the value: an accepted expression is worth at most `max_terms * 10^(max_digits_per_number * max_factors)`, and all three limits are then at least 1 |
| AddMul.DefaultResultBelowIntLimit | run_dummymodule.py:97-159 | With the default limits every result is below `10^4300` |
| AddMul.StructuredFactorsAreNumerals | run_dummymodule.py:129-151 | After the structural check, every factor the later splits produce is a non-empty digit run |
| AddMulLaws.RenderRoundTrip | run_dummymodule.py:106-109 | For any terms of digit runs written as `a*b+c…`, evaluation splits the text back into the same terms and factors. It succeeds iff the length and count limits allow, and yields the arithmetic value with `*` binding tighter than `+` |
| AddMulLaws.PrecedenceExample | run_dummymodule.py:134-159 | `2+3*4` evaluates to 14 |
| AddMulLaws.LeadingZerosExample | run_dummymodule.py:154-155 | `007*1+0` evaluates to 7 |
| AddMulLaws.LongLiteralExample | run_dummymodule.py:152-153 | `0000000` is refused as a too-long literal although its value is 0 |
| AddMulLaws.IllegalBeforeStructure | run_dummymodule.py:125-130 | `2-3` is refused for an illegal character, not for its structure |
| AddMulLaws.UnicodeDigitExample | run_dummymodule.py:125-130 | `٣+1` matches the structural pattern but is refused by the whitelist |
| AddMulLaws.SpacedExample | run_dummymodule.py:126-159 | ` 2 +\t3 * 4 ` evaluates to 14: whitespace around the numbers and operators is allowed |
| AddMulLaws.EvaluatesTo | run_dummymodule.py:122-159 | An expression that passes the first three guards and splits into digit runs within the limits evaluates to their sum of products |
| AddMulLaws.DoubleOperatorExample | run_dummymodule.py:129-130 | `2++3` is refused for its structure |
| AddMulLaws.LeadingOperatorExample | run_dummymodule.py:129-130 | `+2` is refused for its structure: there is no unary operator |
| AddMulLaws.TrailingOperatorExample | run_dummymodule.py:129-130 | `2+` is refused for its structure |
| AddMulLaws.AdjacentNumbersExample | run_dummymodule.py:129-130 | `1 2` is refused for its structure: two numbers need an operator between them |
| AddMulLaws.FactorCountFirstExample | run_dummymodule.py:144-153 | With one factor allowed, `1234567*1` is refused for its factor count, not for its seven-digit literal |
| AddMulLaws.FirstTermFirstExample | run_dummymodule.py:139-153 | With one factor allowed, `1234567+1*1` is refused for the literal of its first term, before the second term's factor count is checked |
| GnuArgs.ParseGnuStyleArgs | run_dummymodule.py:34-49 | The scan's result has as keys exactly the names of the `--` tokens. The value of each flag is what its last occurrence takes: the next token unless there is none or it is a flag |
| GnuArgs.ParseKeysSound | run_dummymodule.py:38-45 | Every key comes from some `--` token |
| GnuArgs.ParseKeysComplete | run_dummymodule.py:38-45 | Every `--` token becomes a key: no flag is consumed as the value of the flag before it |
| GnuArgs.ParseLastValue | run_dummymodule.py:36-45 | A flag maps to the value its last occurrence takes |
| GnuArgs.DocstringExample | run_dummymodule.py:27-29 | The docstring's example command line gives the docstring's dictionary |
| GnuArgs.RepeatedFlagExample | run_dummymodule.py:40-44 | `--ok 1 --ok` leaves `ok` mapped to `None`: the later bare occurrence overrides |
| Paths.FromStringAsPosix | run_dummymodule.py:86 | Reading back `.as_posix()` of a path gives the same path |
| Paths.DivAssoc | run_dummymodule.py:84-86 | `(a / b) / c == a / (b / c)` for paths, with an absolute right operand replacing the left |
| Paths.ParentSlashName | run_dummymodule.py:82-86 | A path with a name is its `.parent` joined with its `.name` |
| Json.NatText | run_dummymodule.py:56 | The decimal text of a natural number is a digit run whose value is the number, without a leading zero |
| Json.IntText | run_dummymodule.py:56 | The text of an integer reads back as that integer |
| Json.NatTextDigits | run_dummymodule.py:56 | The decimal text of `n` has at most `k` digits iff `n < 10^k`, which fixes the results whose text CPython refuses to write |
| Json.SerializeWithinIntLimit | run_dummymodule.py:55-56 | A result below `10^4300` is written as the JSON object around its numeral, which has at most 4300 digits |
| Json.ReadSerialize | run_dummymodule.py:55-56 | The result can be read back from `serialize(result, None)` |
| Json.SerializeInjective | run_dummymodule.py:55-56 | Different results give different texts |
| Dispatch.Proceed | run_dummymodule.py:64-94 | A valued `fail` raises before anything else, and it is the only way `RuntimeError` appears. A failed evaluation raises its error with no other effect and `payload` unchanged. A successful one sets `payload` to its value. Without an evaluation, `payload` is unchanged |
| Dispatch.OnlyLastEnds | run_dummymodule.py:64-94 | No action before the last one raises or exits |
| Dispatch.WriteHoldsPayload | run_dummymodule.py:85-90 | Every file written holds the content for the payload after the evaluation, and its directory is created just before it |
| Dispatch.ExitAfterWrite | run_dummymodule.py:77-94 | `sys.exit(0)` happens iff `ok` has a value and nothing raised before, so not when the output names a directory. It is the last action and comes right after the write when there is an output |
| Dispatch.ContentRecordsPayload | run_dummymodule.py:87-90 | The output file's text records exactly the payload: the filler is never read as a result, and a result reads back as itself |
| Dispatch.TargetIsOutputPath | run_dummymodule.py:81-86 | The file written is `output_dir / output`, and the directory created before it is that file's parent |
| Dispatch.WriteTarget | run_dummymodule.py:77-86 | Whenever a file is written, a non-empty `output_dir` and an `output` that does not name a directory were given. The file is `output_dir / output` and its parent is created right before |
| Dispatch.OutputWritten | run_dummymodule.py:77-90 | A file is written iff the run gets past the evaluation with a non-empty `output_dir` and an `output` whose name is neither empty nor `..`. With any `output`, the actions then start with creating `out_dir` and the target's parent. The third action writes the target file with the content for the payload, or, when the output names a directory, raises `IsADirectoryError` and ends the run |
| Dispatch.AbsoluteOutput | run_dummymodule.py:82-86 | An absolute `--output` is written where it says, whatever `output_dir` is |
| Dispatch.SerializedWithinIntLimit | run_dummymodule.py:67-90 | A result of `--evaluate` has a decimal text of at most 4300 digits, so `serialize` can write it |
| Dispatch.BareFlagIgnored | run_dummymodule.py:64-92 | A bare `--fail`, `--evaluate`, `--output` or `--ok` does the same as leaving the flag out |
| Dispatch.UnknownFlagIgnored | run_dummymodule.py:59-94 | A flag `handle_args` does not read changes nothing |
| Dispatch.NoOutputDirRaises | run_dummymodule.py:77-79 | Once past the evaluation, a bare `--output_dir` raises the `TypeError` of `os.makedirs(None)` and an empty one the error of `os.makedirs("")`, before any other effect |
| Dispatch.BareFailExample | run_dummymodule.py:64-79 | `--fail` alone only creates the current directory |
| Dispatch.FailExample | run_dummymodule.py:64-65 | `--fail now` raises before anything else |
| Dispatch.EvalErrorExample | run_dummymodule.py:67-73 | `--evaluate 2-3 --output r.json` raises the whitelist error and writes nothing |
| Dispatch.DirectoryOutputExample | run_dummymodule.py:77-94 | `--output_dir out --output . --ok yes` creates `out` twice, then opening `out` for writing raises and the run does not exit |
| Dispatch.FillerExample | run_dummymodule.py:77-88 | `--output r.json` alone creates `.` twice and writes 32 `A`s to `r.json`, because nothing was evaluated |
| Dispatch.ParentOutputExample | run_dummymodule.py:77-86 | `--output a/..` creates `a`, then opening `a/..` raises `IsADirectoryError` |
| Dispatch.EvaluateAndWriteExample | run_dummymodule.py:67-94 | `--evaluate 2+3*4 --output r.json --ok yes` creates `.` twice, writes the serialization of 14 to `r.json`, exits, and leaves `payload` at 14 |

## Left out

- `run_fastcluster.py` and the other scripts of the repository are not part of this model.
- The `print` calls and the `if __name__ == "__main__"` printing of the parsed arguments are output only. They are left out.
- `sys.exit(0)` is the action `ExitOk`, and the raised exceptions are actions that end the list. Python's exception objects and their messages are not modelled beyond one tag per `ValueError` message.
- `parse_gnu_style_args(None)` reading `sys.argv[1:]` is left out: the command line is a parameter.
- The `isinstance(expr, str)` `TypeError` (line 120-121) is left out: every value the flags can carry is a string.
- The file system is not modelled.
  - Creating a directory and writing a file are actions. Their failures that depend on what the file system holds are left out: permissions, an existing file where a directory should be, or an `--output` naming a directory that already exists.
  - The failures modelled are those that depend only on the flags' text. `os.makedirs("")` raises. An `--output` whose name is empty (`""`, `.`, `/`) or `..` opens a directory, because that directory was just created.
- The order of a Python `dict` is not modelled, only its lookups.
- `pathlib`'s special root `//` (exactly two leading slashes) is read as `/`.
- `json.dumps` for a non-`None` `error` is left out: the only call passes `None`.
- Dispatch.Handle, Dispatch.HandleArgs and Dispatch.RunModule carry no contract of their own. Their properties are stated of `Dispatch.Proceed` for every evaluation outcome, which covers the one `Evaluation` gives.
- The test `out_dir is not None` (line 83) is always true where it is reached, because line 79 has already raised for `None`.
- The test `not factors` (line 142) is never true, because a split has at least one piece.
- `--evaluate` runs the evaluator with its default limits (512, 128, 128, 6).
- `AddMul.Limits` lets the lemmas state the guards for other limits too.
- AddMul.Evaluate does not model CPython's cap of 4300 digits on `int()` of a string (Python 3.11 and later, configurable). With `max_digits_per_number` above 4300, a longer literal raises in the source but the model evaluates it. With the default cap of 6, or any cap up to 4300, the limit cannot be reached (`AddMul.ConvertedWithinIntLimit`).
- Json.Serialize writes a text for every integer, but CPython 3.11 and later make `json.dumps` raise `ValueError` for an integer of more than 4300 digits, through the same limit as `int()`. `handle_args` cannot reach that: with the default limits, every result of `--evaluate` has at most 4300 digits (`Dispatch.SerializedWithinIntLimit`).
- Dispatch.TargetIsOutputPath requires an `--output` with a name. Without one, the directory created is the opened path itself, not its parent (`Dispatch.DirectoryOutputExample`).
