/** `parse_gnu_style_args`: a left-to-right scan of the command line that
    turns `--flag value` pairs into a map from flag name to value, a flag
    with no value after it into a flag mapped to `None`, and skips every
    other token. */
module GnuArgs {
  import opened Wrappers

  /** The keyword arguments `handle_args` receives: flag name to value. The
      order of a Python `dict` is not modelled, only its lookups. */
  type Flags = map<string, Option<string>>

  /** `arg.startswith("--")`. */
  predicate IsFlag(arg: string) {
    |arg| >= 2 && arg[0] == '-' && arg[1] == '-'
  }

  /** `arg[2:]`: the flag's name, which may itself be empty (`--`). */
  function FlagName(arg: string): string
    requires IsFlag(arg)
  {
    arg[2..]
  }

  /** The token at `j` is the flag `--k`. */
  predicate FlagAt(argv: seq<string>, j: int, k: string)
    requires 0 <= j < |argv|
  {
    IsFlag(argv[j]) && FlagName(argv[j]) == k
  }

  /** The value the flag at `j` takes: the next token, unless there is none
      or it is itself a flag. */
  function ValueAfter(argv: seq<string>, j: int): Option<string>
    requires 0 <= j < |argv|
  {
    if j + 1 < |argv| && !IsFlag(argv[j + 1]) then Some(argv[j + 1]) else None
  }

  /** The token at `j` is a flag that does not occur again later. */
  predicate LastFlagAt(argv: seq<string>, j: int)
    requires 0 <= j < |argv|
  {
    && IsFlag(argv[j])
    && forall j' :: j < j' < |argv| ==> !FlagAt(argv, j', FlagName(argv[j]))
  }

  /** The flag map of a command line, read token by token from the front: a
      later assignment to the same flag overrides an earlier one. */
  function Parse(argv: seq<string>): Flags
    decreases |argv|
  {
    if |argv| == 0 then map[]
    else if !IsFlag(argv[0]) then Parse(argv[1..])
    else if ValueAfter(argv, 0).Some? then
      map[FlagName(argv[0]) := Some(argv[1])] + Parse(argv[2..])
    else
      map[FlagName(argv[0]) := None] + Parse(argv[1..])
  }

  /** `parse_gnu_style_args(argv)` (run_dummymodule.py:34-49): the flags of
      the command line are exactly its `--` tokens, each with the value that
      its last occurrence takes. */
  method ParseGnuStyleArgs(argv: seq<string>) returns (args: Flags)
    ensures args == Parse(argv)
    ensures forall k :: k in args <==> exists j :: 0 <= j < |argv| && FlagAt(argv, j, k)
    ensures forall j :: 0 <= j < |argv| && LastFlagAt(argv, j) ==>
      FlagName(argv[j]) in args && args[FlagName(argv[j])] == ValueAfter(argv, j)
  {
    args := map[];
    var i := 0;
    while i < |argv|
      invariant 0 <= i <= |argv|
      invariant args + Parse(argv[i..]) == Parse(argv)
      decreases |argv| - i
    {
      var arg := argv[i];
      var rest := argv[i..];
      assert rest[0] == arg;
      if IsFlag(arg) {
        var flag := arg[2..];
        if i + 1 < |argv| && !IsFlag(argv[i + 1]) {
          assert rest[1] == argv[i + 1] && rest[2..] == argv[i + 2..];
          UpdateThenMerge(args, flag, Some(argv[i + 1]), Parse(argv[i + 2..]));
          args := args[flag := Some(argv[i + 1])];
          i := i + 2;
        } else {
          assert rest[1..] == argv[i + 1..];
          UpdateThenMerge(args, flag, None, Parse(argv[i + 1..]));
          args := args[flag := None];
          i := i + 1;
        }
      } else {
        assert rest[1..] == argv[i + 1..];
        i := i + 1;
      }
    }
    assert args == Parse(argv);
    forall k | k in args
      ensures exists j :: 0 <= j < |argv| && FlagAt(argv, j, k)
    {
      ParseKeysSound(argv, k);
    }
    forall j | 0 <= j < |argv| && IsFlag(argv[j])
      ensures FlagName(argv[j]) in args
    {
      ParseKeysComplete(argv, j);
    }
    forall j | 0 <= j < |argv| && LastFlagAt(argv, j)
      ensures FlagName(argv[j]) in args && args[FlagName(argv[j])] == ValueAfter(argv, j)
    {
      ParseLastValue(argv, j);
    }
  }

  /** Assigning one key and then merging is merging the assignment. */
  lemma UpdateThenMerge(m: Flags, k: string, v: Option<string>, rest: Flags)
    ensures m[k := v] + rest == m + (map[k := v] + rest)
  {
  }

  // ---------------------------------------------------------------------------
  // Properties

  /** Every key of the map is the name of some `--` token. */
  lemma {:induction false} ParseKeysSound(argv: seq<string>, k: string)
    requires k in Parse(argv)
    ensures exists j :: 0 <= j < |argv| && FlagAt(argv, j, k)
    decreases |argv|
  {
    var n := if ValueAfter(argv, 0).Some? then 2 else 1;
    if IsFlag(argv[0]) && FlagName(argv[0]) == k {
      assert FlagAt(argv, 0, k);
    } else {
      if !IsFlag(argv[0]) {
        n := 1;
      }
      ParseKeysSound(argv[n..], k);
      var j :| 0 <= j < |argv[n..]| && FlagAt(argv[n..], j, k);
      assert argv[n..][j] == argv[j + n];
      assert FlagAt(argv, j + n, k);
    }
  }

  /** Every `--` token names a key of the map: no flag is ever taken as the
      value of the flag before it. */
  lemma {:induction false} ParseKeysComplete(argv: seq<string>, j: int)
    requires 0 <= j < |argv| && IsFlag(argv[j])
    ensures FlagName(argv[j]) in Parse(argv)
    decreases |argv|
  {
    if j > 0 {
      var n := if IsFlag(argv[0]) && ValueAfter(argv, 0).Some? then 2 else 1;
      assert j >= n;
      assert argv[n..][j - n] == argv[j];
      ParseKeysComplete(argv[n..], j - n);
    }
  }

  /** A flag takes the value of its last occurrence: the token after it when
      that token is not a flag, `None` otherwise. */
  lemma {:induction false} ParseLastValue(argv: seq<string>, j: int)
    requires 0 <= j < |argv| && LastFlagAt(argv, j)
    ensures FlagName(argv[j]) in Parse(argv)
    ensures Parse(argv)[FlagName(argv[j])] == ValueAfter(argv, j)
    decreases |argv|
  {
    var k := FlagName(argv[j]);
    var n := if IsFlag(argv[0]) && ValueAfter(argv, 0).Some? then 2 else 1;
    if j == 0 {
      if k in Parse(argv[n..]) {
        ParseKeysSound(argv[n..], k);
        var j' :| 0 <= j' < |argv[n..]| && FlagAt(argv[n..], j', k);
        assert argv[n..][j'] == argv[j' + n];
        assert FlagAt(argv, j' + n, k);
        assert false;
      }
    } else {
      assert j >= n;
      var tail := argv[n..];
      assert tail[j - n] == argv[j];
      forall j' | j - n < j' < |tail|
        ensures !FlagAt(tail, j', k)
      {
        assert tail[j'] == argv[j' + n];
        assert !FlagAt(argv, j' + n, k);
      }
      ParseLastValue(tail, j - n);
      assert ValueAfter(tail, j - n) == ValueAfter(argv, j) by {
        if j + 1 < |argv| {
          assert tail[j - n + 1] == argv[j + 1];
        }
      }
    }
  }

  /** The example of the docstring (run_dummymodule.py:27-29). */
  lemma DocstringExample()
    ensures Parse(["--name", "John", "--verbose", "--age", "30"]) ==
      map["name" := Some("John"), "verbose" := None, "age" := Some("30")]
  {
    var argv := ["--name", "John", "--verbose", "--age", "30"];
    assert IsFlag(argv[0]) && !IsFlag(argv[1]) && IsFlag(argv[2]) && IsFlag(argv[3]) && !IsFlag(argv[4]);
    assert argv[2..] == ["--verbose", "--age", "30"];
    assert argv[2..][1..] == ["--age", "30"];
    assert argv[2..][1..][2..] == [];
    assert FlagName("--name") == "name";
    assert FlagName("--verbose") == "verbose";
    assert FlagName("--age") == "age";
  }

  /** A repeated flag keeps its last value. */
  lemma RepeatedFlagExample()
    ensures Parse(["--ok", "1", "--ok"]) == map["ok" := None]
  {
    var argv := ["--ok", "1", "--ok"];
    assert IsFlag(argv[0]) && !IsFlag(argv[1]) && IsFlag(argv[2]);
    assert argv[2..] == ["--ok"];
    assert argv[2..][1..] == [];
    assert FlagName("--ok") == "ok";
  }
}
