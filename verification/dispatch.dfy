/** The decisions of `handle_args`: which of its effects happen, in which
    order, on which paths and with which file contents, as a list of abstract
    actions. An action that raises, and the `ok` exit, end the run. The
    module-level `payload` is threaded through as an explicit value. */
module Dispatch {
  import opened Wrappers
  import opened AddMul
  import opened AddMulLaws
  import opened Paths
  import opened Json
  import opened GnuArgs
  import opened Text

  datatype Action =
    | RaiseFailingHard                 // RuntimeError("failing hard")
    | RaiseEvalError(error: EvalError) // the evaluator's ValueError, re-raised
    | RaiseDirTypeError                // os.makedirs(None): TypeError
    | RaiseNoSuchDir                   // os.makedirs(""): FileNotFoundError
    | MakeDirs(dir: Path)              // os.makedirs(dir, exist_ok=True)
    | WriteFile(path: string, text: string)
    | RaiseIsADirectory(path: string)  // open(path, "w") of a directory
    | ExitOk                           // sys.exit(0)

  /** The actions of one call and the value of `payload` afterwards. */
  datatype Outcome = Outcome(actions: seq<Action>, payload: Option<int>)

  /** An action after which nothing else happens. */
  predicate Ends(a: Action) {
    || a.RaiseFailingHard? || a.RaiseEvalError? || a.RaiseDirTypeError? || a.RaiseNoSuchDir?
    || a.RaiseIsADirectory? || a.ExitOk?
  }

  predicate Raises(a: Action) {
    Ends(a) && !a.ExitOk?
  }

  /** The flags `handle_args` reads. */
  const Known: set<string> := {"fail", "evaluate", "output_dir", "output", "ok"}

  /** What the output file holds when nothing was evaluated: `"A" * 32`. */
  const Filler: string := "AAAAAAAAAAAAAAAAAAAAAAAAAAAAAAAA"

  /** The text written to the output file (run_dummymodule.py:87-90). */
  function Content(payload: Option<int>): string {
    match payload
    case None => Filler
    case Some(v) => Serialize(v)
  }

  /** The values `handle_args` looks up, as `kwargs.get` returns them. */
  datatype Request = Request(
    fail: Option<string>,
    evaluate: Option<string>,
    outputDir: Option<string>,
    output: Option<string>,
    ok: Option<string>)

  /** `kwargs.get(k, None)`. */
  function Get(flags: Flags, k: string): Option<string> {
    if k in flags then flags[k] else None
  }

  /** The lookups of run_dummymodule.py:64, 67, 77, 81 and 92; only
      `output_dir` has a default, `"."`, which a bare `--output_dir` does not
      get. */
  function ReadRequest(flags: Flags): Request {
    Request(
      Get(flags, "fail"),
      Get(flags, "evaluate"),
      if "output_dir" in flags then flags["output_dir"] else Some("."),
      Get(flags, "output"),
      Get(flags, "ok"))
  }

  /** Where the output goes: the directory `out_dir / Path(out).parent` that
      is created and the file `parent / Path(out).name` that is opened
      (run_dummymodule.py:82-86). `out_dir` cannot be `None` at that point
      (line 79 has already raised), so the test at line 83 always passes.
      `isDir` says that the opened path is a directory whatever the file
      system holds: a `Path(out)` without a name (`""`, `.`, `/`) opens
      `parent` itself, and one named `..` opens the parent of `parent`, both
      of which exist once `parent` is created. */
  datatype Target = Target(dir: Path, file: string, isDir: bool)

  /** The name of `Path(out)` is empty or `..`. */
  predicate NamesDirectory(out: string) {
    var n := Name(FromString(out));
    n == "" || n == ".."
  }

  function OutputTarget(dir: Path, out: string): Target {
    var o := FromString(out);
    var parent := Div(dir, Parent(o));
    Target(parent, AsPosix(Div(parent, FromString(Name(o)))), NamesDirectory(out))
  }

  /** Opening the target for writing: `IsADirectoryError` for a directory,
      otherwise the file is written. */
  function Open(t: Target, text: string): Action {
    if t.isDir then RaiseIsADirectory(t.file) else WriteFile(t.file, text)
  }

  /** The output step raises. */
  predicate OpenFails(target: Option<Target>) {
    target.Some? && target.value.isDir
  }

  /** The effects once `out_dir` is known: create it, then create the
      output's directory and open the file if there is an output, then exit
      if `ok` has a value and opening did not raise. */
  function Steps(dir: Path, target: Option<Target>, ok: bool, text: string): (acts: seq<Action>)
    ensures |acts| >= 1 && acts[0] == MakeDirs(dir)
    ensures forall i :: 0 <= i < |acts| ==>
      acts[i].MakeDirs? || acts[i].WriteFile? || acts[i].RaiseIsADirectory? || acts[i].ExitOk?
  {
    [MakeDirs(dir)]
    + (match target
       case None => []
       case Some(t) => [MakeDirs(t.dir), Open(t, text)])
    + (if ok && !OpenFails(target) then [ExitOk] else [])
  }

  /** Everything after the evaluation (run_dummymodule.py:77-94). A bare
      `--output_dir` gives `os.makedirs(None)` and an empty one
      `os.makedirs("")`, and both raise. */
  function Effects(req: Request, payload: Option<int>): (acts: seq<Action>)
    ensures |acts| >= 1
    ensures forall i :: 0 <= i < |acts| ==> !acts[i].RaiseFailingHard? && !acts[i].RaiseEvalError?
  {
    match req.outputDir
    case None => [RaiseDirTypeError]
    case Some(d) =>
      if d == "" then [RaiseNoSuchDir]
      else
        var dir := FromString(d);
        var target := if req.output.Some? then Some(OutputTarget(dir, req.output.value)) else None;
        Steps(dir, target, req.ok.Some?, Content(payload))
  }

  /** What evaluating `--evaluate` gives, `None` when it has no value
      (run_dummymodule.py:67-73). */
  function Evaluation(req: Request): Option<Result<int, EvalError>> {
    if req.evaluate.Some? then Some(Evaluate(req.evaluate.value, DefaultLimits)) else None
  }

  /** The body of `handle_args` with `payload` as the module-level variable
      (run_dummymodule.py:64-94), given the outcome of the evaluation: a value
      for `fail` raises before anything else (the evaluation is then never
      run); a failed evaluation raises before any directory is made and
      leaves `payload` as it was; a successful one replaces it. */
  function Proceed(req: Request, payload: Option<int>, evaluated: Option<Result<int, EvalError>>): (o: Outcome)
    ensures |o.actions| >= 1
    ensures RaiseFailingHard in o.actions <==> req.fail.Some?
    ensures req.fail.Some? ==> o == Outcome([RaiseFailingHard], payload)
    ensures req.fail.None? && evaluated.Some? && evaluated.value.Failure? ==>
      o == Outcome([RaiseEvalError(evaluated.value.error)], payload)
    ensures req.fail.None? && evaluated.Some? && evaluated.value.Success? ==>
      o.payload == Some(evaluated.value.value) && !o.actions[|o.actions| - 1].RaiseEvalError?
    ensures req.fail.Some? || evaluated.None? ==> o.payload == payload
  {
    if req.fail.Some? then Outcome([RaiseFailingHard], payload)
    else match evaluated
      case None => Outcome(Effects(req, payload), payload)
      case Some(Failure(err)) => Outcome([RaiseEvalError(err)], payload)
      case Some(Success(v)) => Outcome(Effects(req, Some(v)), Some(v))
  }

  function Handle(req: Request, payload: Option<int>): Outcome {
    Proceed(req, payload, Evaluation(req))
  }

  /** `handle_args(**flags)` (run_dummymodule.py:59-94). */
  function HandleArgs(flags: Flags, payload: Option<int>): Outcome {
    Handle(ReadRequest(flags), payload)
  }

  /** Running the script: the command line is parsed and `payload` starts as
      `None` (run_dummymodule.py:52, 162-167). */
  function RunModule(argv: seq<string>): Outcome {
    HandleArgs(Parse(argv), None)
  }

  /** The run gets past the evaluation to the directory step. */
  predicate PastEvaluation(req: Request, evaluated: Option<Result<int, EvalError>>) {
    req.fail.None? && (evaluated.Some? ==> evaluated.value.Success?)
  }

  /** `output_dir` names a directory `os.makedirs` can create. */
  predicate HasDir(req: Request) {
    req.outputDir.Some? && req.outputDir.value != ""
  }

  /** The target of a request with an output. */
  function TargetOf(req: Request): Option<Target>
    requires req.outputDir.Some?
  {
    if req.output.Some? then Some(OutputTarget(FromString(req.outputDir.value), req.output.value)) else None
  }

  /** Past the evaluation, with a directory, the actions are the steps. */
  lemma ProceedSteps(req: Request, payload: Option<int>, evaluated: Option<Result<int, EvalError>>)
    requires PastEvaluation(req, evaluated) && HasDir(req)
    ensures var o := Proceed(req, payload, evaluated);
      o.actions == Steps(FromString(req.outputDir.value), TargetOf(req), req.ok.Some?, Content(o.payload))
  {
  }

  // ---------------------------------------------------------------------------
  // The order of the effects

  /** Only the last action may raise or exit: `handle_args` stops at the
      first exception and at `sys.exit`. */
  lemma OnlyLastEnds(req: Request, payload: Option<int>, evaluated: Option<Result<int, EvalError>>)
    ensures var acts := Proceed(req, payload, evaluated).actions;
      forall i :: 0 <= i < |acts| - 1 ==> !Ends(acts[i])
  {
    if PastEvaluation(req, evaluated) && HasDir(req) {
      ProceedSteps(req, payload, evaluated);
      var o := Proceed(req, payload, evaluated);
      StepsEndLast(FromString(req.outputDir.value), TargetOf(req), req.ok.Some?, Content(o.payload));
    }
  }

  /** Only the last step ends the run: the exit, or the `IsADirectoryError`
      of opening a directory, which is then the third step. */
  lemma StepsEndLast(dir: Path, target: Option<Target>, ok: bool, text: string)
    ensures var acts := Steps(dir, target, ok, text);
      forall i :: 0 <= i < |acts| - 1 ==> !Ends(acts[i])
    ensures var acts := Steps(dir, target, ok, text);
      forall i :: 0 <= i < |acts| && Raises(acts[i]) ==>
        OpenFails(target) && i == 2 == |acts| - 1 && acts[i] == RaiseIsADirectory(target.value.file)
  {
    var acts := Steps(dir, target, ok, text);
    var w := if target.Some? then [MakeDirs(target.value.dir), Open(target.value, text)] else [];
    assert acts == [MakeDirs(dir)] + w + (if ok && !OpenFails(target) then [ExitOk] else []);
    forall i | 0 <= i < |acts|
      ensures i < |acts| - 1 ==> !Ends(acts[i])
      ensures Raises(acts[i]) ==>
        OpenFails(target) && i == 2 == |acts| - 1 && acts[i] == RaiseIsADirectory(target.value.file)
    {
      if 0 < i <= |w| {
        assert acts[i] == w[i - 1];
      }
    }
  }

  /** Every file written holds the payload as it stands after the
      evaluation, and its directory is created just before. */
  lemma WriteHoldsPayload(req: Request, payload: Option<int>, evaluated: Option<Result<int, EvalError>>)
    ensures var o := Proceed(req, payload, evaluated);
      forall i :: 0 <= i < |o.actions| && o.actions[i].WriteFile? ==>
        o.actions[i].text == Content(o.payload) && 0 < i && o.actions[i - 1].MakeDirs?
  {
    OutputWritten(req, payload, evaluated);
    if PastEvaluation(req, evaluated) && HasDir(req) {
      ProceedSteps(req, payload, evaluated);
      var o := Proceed(req, payload, evaluated);
      StepsWrite(FromString(req.outputDir.value), TargetOf(req), req.ok.Some?, Content(o.payload));
    }
  }

  /** The only write is the third step, to the target's file, right after its
      directory is created. */
  lemma StepsWrite(dir: Path, target: Option<Target>, ok: bool, text: string)
    ensures var acts := Steps(dir, target, ok, text);
      forall i :: 0 <= i < |acts| && acts[i].WriteFile? ==>
        && target.Some? && !target.value.isDir && i == 2
        && acts[i] == WriteFile(target.value.file, text)
        && acts[i - 1] == MakeDirs(target.value.dir)
  {
    var acts := Steps(dir, target, ok, text);
    if target.Some? {
      var t := target.value;
      assert acts[..3] == [MakeDirs(dir), MakeDirs(t.dir), Open(t, text)];
    }
  }

  /** `sys.exit(0)` happens exactly when `ok` has a value and nothing raised
      before it; it comes last, right after the output file is written when
      there is one. */
  lemma ExitAfterWrite(req: Request, payload: Option<int>, evaluated: Option<Result<int, EvalError>>)
    ensures var acts := Proceed(req, payload, evaluated).actions;
      ExitOk in acts <==>
        && req.ok.Some? && PastEvaluation(req, evaluated) && HasDir(req)
        && !(req.output.Some? && NamesDirectory(req.output.value))
    ensures var acts := Proceed(req, payload, evaluated).actions;
      ExitOk in acts ==>
        && acts[|acts| - 1] == ExitOk
        && (req.output.Some? ==> acts[|acts| - 2].WriteFile?)
  {
    if PastEvaluation(req, evaluated) && HasDir(req) {
      ProceedSteps(req, payload, evaluated);
      var o := Proceed(req, payload, evaluated);
      StepsExit(FromString(req.outputDir.value), TargetOf(req), req.ok.Some?, Content(o.payload));
    }
  }

  lemma StepsExit(dir: Path, target: Option<Target>, ok: bool, text: string)
    ensures var acts := Steps(dir, target, ok, text);
      ExitOk in acts <==> ok && !OpenFails(target)
    ensures var acts := Steps(dir, target, ok, text);
      ok && !OpenFails(target) ==>
        && acts[|acts| - 1] == ExitOk
        && (target.Some? ==> acts[|acts| - 2].WriteFile?)
  {
    var acts := Steps(dir, target, ok, text);
    if target.Some? {
      var t := target.value;
      assert acts[..3] == [MakeDirs(dir), MakeDirs(t.dir), Open(t, text)];
    }
  }

  // ---------------------------------------------------------------------------
  // Contents and paths

  /** The output file records exactly the payload: a serialization of the
      result when there is one, and text that is not one otherwise. */
  lemma ContentRecordsPayload(payload: Option<int>)
    ensures ReadResult(Content(payload)) == payload
  {
    match payload
    case None =>
      assert Filler[0] == 'A' != Prefix[0];
      assert Filler[..|Prefix|][0] == Filler[0];
    case Some(v) =>
      ReadSerialize(v);
  }

  /** The file written is `out_dir / out`, and the directory created for it
      is that file's parent. */
  lemma TargetIsOutputPath(dir: Path, out: string)
    requires Valid(dir) && Name(FromString(out)) != ""
    ensures FromString(OutputTarget(dir, out).file) == Div(dir, FromString(out))
    ensures OutputTarget(dir, out).dir == Parent(Div(dir, FromString(out)))
  {
    var o := FromString(out);
    var parent := Div(dir, Parent(o));
    var name := FromString(Name(o));
    DivAssoc(dir, Parent(o), name);
    ParentSlashName(o);
    DivValid(dir, o);
    FromStringAsPosix(Div(dir, o));
    ParentOfDiv(dir, o);
  }

  /** The output file of a run is `output_dir / output` (an absolute `output`
      ignores `output_dir`), written right after its parent is created. */
  lemma WriteTarget(req: Request, payload: Option<int>, evaluated: Option<Result<int, EvalError>>, i: int)
    requires var o := Proceed(req, payload, evaluated); 0 <= i < |o.actions| && o.actions[i].WriteFile?
    ensures HasDir(req) && req.output.Some? && !NamesDirectory(req.output.value)
    ensures var target := Div(FromString(req.outputDir.value), FromString(req.output.value));
      var acts := Proceed(req, payload, evaluated).actions;
      && FromString(acts[i].path) == target
      && acts[i - 1] == MakeDirs(Parent(target))
  {
    var o := Proceed(req, payload, evaluated);
    assert PastEvaluation(req, evaluated) && HasDir(req);
    ProceedSteps(req, payload, evaluated);
    var dir := FromString(req.outputDir.value);
    StepsWrite(dir, TargetOf(req), req.ok.Some?, Content(o.payload));
    TargetIsOutputPath(dir, req.output.value);
  }

  /** A file is written exactly when the run gets past the evaluation with a
      non-empty `output_dir` and an `output` that does not name a directory.
      The output is opened by the third action: `out_dir` is created, then
      the target's parent, then the file is written with the content for the
      payload, or, for a directory, `IsADirectoryError` ends the run. */
  lemma OutputWritten(req: Request, payload: Option<int>, evaluated: Option<Result<int, EvalError>>)
    ensures var acts := Proceed(req, payload, evaluated).actions;
      (exists i :: 0 <= i < |acts| && acts[i].WriteFile?) <==>
        PastEvaluation(req, evaluated) && HasDir(req) && req.output.Some? && !NamesDirectory(req.output.value)
    ensures PastEvaluation(req, evaluated) && HasDir(req) && req.output.Some? ==>
      var o := Proceed(req, payload, evaluated);
      var t := TargetOf(req).value;
      && |o.actions| >= 3
      && o.actions[0] == MakeDirs(FromString(req.outputDir.value))
      && o.actions[1] == MakeDirs(t.dir)
      && o.actions[2] == (if NamesDirectory(req.output.value) then RaiseIsADirectory(t.file)
                          else WriteFile(t.file, Content(o.payload)))
      && (NamesDirectory(req.output.value) ==> |o.actions| == 3)
  {
    var o := Proceed(req, payload, evaluated);
    if PastEvaluation(req, evaluated) && HasDir(req) {
      ProceedSteps(req, payload, evaluated);
      StepsWrite(FromString(req.outputDir.value), TargetOf(req), req.ok.Some?, Content(o.payload));
      if req.output.Some? {
        assert o.actions[2] == Open(TargetOf(req).value, Content(o.payload));
      }
    }
  }

  /** An absolute `--output` is written where it says, whatever `output_dir` is. */
  lemma AbsoluteOutput(req: Request, payload: Option<int>, evaluated: Option<Result<int, EvalError>>, i: int)
    requires var o := Proceed(req, payload, evaluated); 0 <= i < |o.actions| && o.actions[i].WriteFile?
    requires req.output.Some? ==> FromString(req.output.value).absolute
    ensures req.output.Some?
    ensures var o := Proceed(req, payload, evaluated); FromString(o.actions[i].path) == FromString(req.output.value)
  {
    WriteTarget(req, payload, evaluated, i);
  }

  /** A result of `--evaluate` has at most 4300 digits, so `serialize` can
      write it within CPython's conversion limit. */
  lemma SerializedWithinIntLimit(e: string)
    requires Evaluate(e, DefaultLimits).Success?
    ensures var v := Evaluate(e, DefaultLimits).value;
      v >= 0 && Serialize(v) == Prefix + NatText(v) + Suffix && |NatText(v)| <= IntMaxStrDigits
  {
    DefaultResultBelowIntLimit(e);
    SerializeWithinIntLimit(Evaluate(e, DefaultLimits).value);
  }

  // ---------------------------------------------------------------------------
  // Which flags matter

  /** Every test is `is not None`: a bare `--fail`, `--evaluate`, `--output`
      or `--ok` does the same as leaving the flag out. */
  lemma BareFlagIgnored(flags: Flags, k: string, payload: Option<int>)
    requires k in Known - {"output_dir"}
    ensures HandleArgs(flags[k := None], payload) == HandleArgs(flags - {k}, payload)
  {
    assert ReadRequest(flags[k := None]) == ReadRequest(flags - {k});
  }

  /** A flag `handle_args` does not look up changes nothing. */
  lemma UnknownFlagIgnored(flags: Flags, k: string, v: Option<string>, payload: Option<int>)
    requires k !in Known
    ensures HandleArgs(flags[k := v], payload) == HandleArgs(flags, payload)
  {
    assert ReadRequest(flags[k := v]) == ReadRequest(flags);
  }

  /** A bare `--output_dir` makes `os.makedirs(None)` raise, and an empty
      one `os.makedirs("")`, once neither `fail` nor the evaluation has
      stopped the run. */
  lemma NoOutputDirRaises(flags: Flags, payload: Option<int>)
    requires "output_dir" in flags && (flags["output_dir"] == None || flags["output_dir"] == Some(""))
    requires var req := ReadRequest(flags); PastEvaluation(req, Evaluation(req))
    ensures HandleArgs(flags, payload).actions ==
      (if flags["output_dir"] == None then [RaiseDirTypeError] else [RaiseNoSuchDir])
  {
  }

  // ---------------------------------------------------------------------------
  // Runs of the script

  /** `--fail` without a value fails nothing: the run only creates `.`. */
  lemma BareFailExample()
    ensures RunModule(["--fail"]) == Outcome([MakeDirs(Path(false, []))], None)
  {
    var argv := ["--fail"];
    assert argv[1..] == [];
    assert FlagName("--fail") == "fail";
    assert Parse(argv) == map["fail" := None];
    SplitAtFree(".", '/');
    assert ["."][1..] == [];
    assert FromString(".") == Path(false, []);
  }

  /** `--fail now` raises before anything else happens. */
  lemma FailExample()
    ensures RunModule(["--fail", "now"]).actions == [RaiseFailingHard]
  {
    var argv := ["--fail", "now"];
    assert argv[2..] == [];
    assert FlagName("--fail") == "fail";
    assert Parse(argv) == map["fail" := Some("now")];
  }

  /** An expression the evaluator rejects raises before any directory is
      made, and the output is never written. */
  lemma EvalErrorExample()
    ensures RunModule(["--evaluate", "2-3", "--output", "r.json"]) ==
      Outcome([RaiseEvalError(IllegalCharacters)], None)
  {
    var argv := ["--evaluate", "2-3", "--output", "r.json"];
    assert argv[2..] == ["--output", "r.json"] && argv[2..][2..] == [];
    assert FlagName("--evaluate") == "evaluate" && FlagName("--output") == "output";
    assert Parse(argv) == map["evaluate" := Some("2-3"), "output" := Some("r.json")];
    IllegalBeforeStructure();
  }

  /** `--evaluate 2+3*4 --output r.json --ok yes`: the current directory is
      created (twice), the result 14 is written to `r.json`, and the run
      exits. */
  lemma EvaluateAndWriteExample()
    ensures RunModule(["--evaluate", "2+3*4", "--output", "r.json", "--ok", "yes"]) ==
      Outcome([MakeDirs(Path(false, [])), MakeDirs(Path(false, [])), WriteFile("r.json", Serialize(14)), ExitOk], Some(14))
  {
    var argv := ["--evaluate", "2+3*4", "--output", "r.json", "--ok", "yes"];
    ParseEvaluateAndWrite();
    var req := Request(None, Some("2+3*4"), Some("."), Some("r.json"), Some("yes"));
    assert RunModule(argv) == Proceed(req, None, Evaluation(req)) by {
      assert ReadRequest(Parse(argv)) == req;
    }
    PrecedenceExample();
    assert Evaluation(req) == Some(Success(14));
    WriteInCurrentDir();
  }

  lemma ParseEvaluateAndWrite()
    ensures Parse(["--evaluate", "2+3*4", "--output", "r.json", "--ok", "yes"]) ==
      map["evaluate" := Some("2+3*4"), "output" := Some("r.json"), "ok" := Some("yes")]
  {
    var argv := ["--evaluate", "2+3*4", "--output", "r.json", "--ok", "yes"];
    assert argv[2..] == ["--output", "r.json", "--ok", "yes"] && argv[2..][2..] == ["--ok", "yes"] && argv[2..][2..][2..] == [];
    assert FlagName("--evaluate") == "evaluate" && FlagName("--output") == "output" && FlagName("--ok") == "ok";
  }

  /** The run above once the evaluation has given 14. */
  lemma WriteInCurrentDir()
    ensures Proceed(Request(None, Some("2+3*4"), Some("."), Some("r.json"), Some("yes")), None, Some(Success(14))) ==
      Outcome([MakeDirs(Path(false, [])), MakeDirs(Path(false, [])), WriteFile("r.json", Serialize(14)), ExitOk], Some(14))
  {
    var req := Request(None, Some("2+3*4"), Some("."), Some("r.json"), Some("yes"));
    var here := Path(false, []);
    OutputInCurrentDir();
    assert TargetOf(req) == Some(Target(here, "r.json", false));
    assert Effects(req, Some(14)) == Steps(here, Some(Target(here, "r.json", false)), true, Serialize(14));
    CurrentDirSteps(Serialize(14));
  }

  lemma CurrentDirSteps(text: string)
    ensures var here := Path(false, []);
      Steps(here, Some(Target(here, "r.json", false)), true, text) ==
      [MakeDirs(here), MakeDirs(here), WriteFile("r.json", text), ExitOk]
  {
  }

  /** `r.json` under `.` is created in the current directory under its own
      name. */
  lemma OutputInCurrentDir()
    ensures FromString(".") == Path(false, [])
    ensures OutputTarget(Path(false, []), "r.json") == Target(Path(false, []), "r.json", false)
  {
    SplitAtFree(".", '/');
    assert ["."][1..] == [];
    FromPart("r.json");
    assert Join(["r.json"], '/') == "r.json";
  }

  /** `--output_dir out --output .`: `out` is created twice and opening it
      for writing raises `IsADirectoryError`, so `--ok` never exits. */
  lemma DirectoryOutputExample()
    ensures Proceed(Request(None, None, Some("out"), Some("."), Some("yes")), None, None) ==
      Outcome([MakeDirs(Path(false, ["out"])), MakeDirs(Path(false, ["out"])), RaiseIsADirectory("out")], None)
  {
    var req := Request(None, None, Some("out"), Some("."), Some("yes"));
    var out := Path(false, ["out"]);
    FromPart("out");
    DotTarget();
    assert TargetOf(req) == Some(Target(out, "out", true));
    ProceedSteps(req, None, None);
    DirectorySteps(out, "out", Content(None));
  }

  lemma DirectorySteps(dir: Path, file: string, text: string)
    ensures Steps(dir, Some(Target(dir, file, true)), true, text) ==
      [MakeDirs(dir), MakeDirs(dir), RaiseIsADirectory(file)]
  {
  }

  /** `.` under `out` is `out` itself, a directory. */
  lemma DotTarget()
    ensures OutputTarget(Path(false, ["out"]), ".") == Target(Path(false, ["out"]), "out", true)
  {
    OutputInCurrentDir();
    assert FromString("") == Path(false, []) by {
      SplitAtFree("", '/');
    }
    assert Join(["out"], '/') == "out";
  }

  /** `--output r.json` without `--evaluate`: the payload is still `None`,
      so the file gets the filler, 32 `A`s. */
  lemma FillerExample()
    ensures RunModule(["--output", "r.json"]) ==
      Outcome([MakeDirs(Path(false, [])), MakeDirs(Path(false, [])), WriteFile("r.json", Filler)], None)
    ensures |Filler| == 32 && forall i :: 0 <= i < |Filler| ==> Filler[i] == 'A'
  {
    var here := Path(false, []);
    OutputOnly("r.json");
    OutputInCurrentDir();
    WriteSteps(here, Target(here, "r.json", false), Filler);
    FillerText();
  }

  lemma FillerText()
    ensures |Filler| == 32 && forall i :: 0 <= i < |Filler| ==> Filler[i] == 'A'
  {
  }

  /** `--output a/..`: `a` is created, and opening `a/..`, the current
      directory, raises. */
  lemma ParentOutputExample()
    ensures RunModule(["--output", "a/.."]) ==
      Outcome([MakeDirs(Path(false, [])), MakeDirs(Path(false, ["a"])), RaiseIsADirectory("a/..")], None)
  {
    OutputOnly("a/..");
    UpTarget();
    OpenDirectorySteps(Path(false, []), Target(Path(false, ["a"]), "a/..", true), Filler);
  }

  /** A command line of `--output` alone runs the steps for its target in
      the current directory, with nothing evaluated. */
  lemma OutputOnly(out: string)
    requires !IsFlag(out)
    ensures var here := Path(false, []);
      RunModule(["--output", out]) ==
        Outcome(Steps(here, Some(OutputTarget(here, out)), false, Filler), None)
  {
    var argv := ["--output", out];
    assert argv[2..] == [];
    assert FlagName("--output") == "output";
    assert Parse(argv) == map["output" := Some(out)];
    var req := Request(None, None, Some("."), Some(out), None);
    assert ReadRequest(Parse(argv)) == req;
    assert FromString(".") == Path(false, []) by {
      OutputInCurrentDir();
    }
    ProceedSteps(req, None, None);
  }

  /** `a/..` under `.` is opened as `a/..`, in the directory `a`, and names a
      directory. */
  lemma UpTarget()
    ensures OutputTarget(Path(false, []), "a/..") == Target(Path(false, ["a"]), "a/..", true)
  {
    UpPath();
    var ps := ["a", ".."];
    assert Name(Path(false, ps)) == ".." && Parent(Path(false, ps)) == Path(false, ["a"]);
    FromPart("..");
    assert Join(ps, '/') == "a/..";
  }

  lemma UpPath()
    ensures FromString("a/..") == Path(false, ["a", ".."])
  {
    SplitAtPrefix("a", "..", '/');
    SplitAtFree("..", '/');
    assert "a/.." == "a" + ['/'] + "..";
    var ps := ["a", ".."];
    assert ps[1..] == [".."] && ps[1..][1..] == [];
  }

  /** With an output that is not a directory and no `--ok`, the steps end
      with the write. */
  lemma WriteSteps(dir: Path, t: Target, text: string)
    requires !t.isDir
    ensures Steps(dir, Some(t), false, text) == [MakeDirs(dir), MakeDirs(t.dir), WriteFile(t.file, text)]
  {
  }

  /** With an output that is a directory, the steps end when it is opened. */
  lemma OpenDirectorySteps(dir: Path, t: Target, text: string)
    requires t.isDir
    ensures Steps(dir, Some(t), false, text) == [MakeDirs(dir), MakeDirs(t.dir), RaiseIsADirectory(t.file)]
  {
  }
}
