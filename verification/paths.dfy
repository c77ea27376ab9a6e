/** The part of POSIX `pathlib` that `handle_args` relies on to place the
    output file: reading a string as a path, `.parent`, `.name`, the `/`
    operator and `.as_posix()`. A path is a root flag and a list of
    components; repeated slashes, a trailing slash and `.` components are
    dropped when a string is read, `..` is kept. */
module Paths {
  import opened Text

  datatype Path = Path(absolute: bool, parts: seq<string>)

  /** A component as a path keeps it. */
  predicate IsPart(c: string) {
    c != "" && c != "." && '/' !in c
  }

  predicate Valid(p: Path) {
    forall i :: 0 <= i < |p.parts| ==> IsPart(p.parts[i])
  }

  /** The pieces between slashes that survive as components. */
  function KeepParts(ps: seq<string>): (r: seq<string>)
    ensures forall i :: 0 <= i < |r| ==> r[i] in ps && r[i] != "" && r[i] != "."
    decreases |ps|
  {
    if |ps| == 0 then []
    else if ps[0] == "" || ps[0] == "." then KeepParts(ps[1..])
    else [ps[0]] + KeepParts(ps[1..])
  }

  /** `Path(s)`: a leading slash makes the path absolute. */
  function FromString(s: string): (p: Path)
    ensures Valid(p)
  {
    var parts := KeepParts(SplitAt(s, '/'));
    assert forall i :: 0 <= i < |parts| ==> '/' !in parts[i];
    Path(|s| > 0 && s[0] == '/', parts)
  }

  /** `.parent`: the path without its last component; the empty relative path
      and the root are their own parents. */
  function Parent(p: Path): Path {
    if |p.parts| == 0 then p else Path(p.absolute, p.parts[..|p.parts| - 1])
  }

  /** `.name`: the last component, or `""` when there is none. */
  function Name(p: Path): string {
    if |p.parts| == 0 then "" else p.parts[|p.parts| - 1]
  }

  /** `a / b`: an absolute right operand replaces the left one. */
  function Div(a: Path, b: Path): Path {
    if b.absolute then b else Path(a.absolute, a.parts + b.parts)
  }

  /** `.as_posix()`: components joined by slashes, `/` for the root, `.` for
      the empty relative path. */
  function AsPosix(p: Path): string {
    if |p.parts| == 0 then (if p.absolute then "/" else ".")
    else if p.absolute then "/" + Join(p.parts, '/')
    else Join(p.parts, '/')
  }

  // ---------------------------------------------------------------------------
  // Properties

  /** Reading back the text of a path gives the same path. */
  lemma FromStringAsPosix(p: Path)
    requires Valid(p)
    ensures FromString(AsPosix(p)) == p
  {
    var s := AsPosix(p);
    if |p.parts| == 0 {
      if p.absolute {
        assert s == "/" && s[1..] == "";
        assert SplitAt(s, '/') == ["", ""];
        assert ["", ""][1..] == [""] && [""][1..] == [];
      } else {
        SplitAtFree(s, '/');
      }
    } else {
      var body := Join(p.parts, '/');
      SplitAtJoin(p.parts, '/');
      KeepValid(p.parts);
      JoinStartsWith(p.parts);
      if p.absolute {
        assert s[0] == '/' && s[1..] == body;
        var pieces := SplitAt(s, '/');
        assert pieces == [""] + p.parts;
        assert pieces[1..] == p.parts;
      }
    }
  }

  /** Components that are all kept survive unchanged. */
  lemma {:induction false} KeepValid(ps: seq<string>)
    requires forall i :: 0 <= i < |ps| ==> IsPart(ps[i])
    ensures KeepParts(ps) == ps
    decreases |ps|
  {
    if |ps| > 0 {
      KeepValid(ps[1..]);
    }
  }

  /** A join of components starts with the first one. */
  lemma JoinStartsWith(ps: seq<string>)
    requires |ps| >= 1 && IsPart(ps[0])
    ensures |Join(ps, '/')| > 0 && Join(ps, '/')[0] == ps[0][0]
  {
  }

  /** A single component read as a path is a relative path of one component. */
  lemma FromPart(c: string)
    requires IsPart(c)
    ensures FromString(c) == Path(false, [c])
  {
    SplitAtFree(c, '/');
    KeepValid([c]);
    assert c[0] != '/';
  }

  /** `/` is associative. */
  lemma DivAssoc(a: Path, b: Path, c: Path)
    ensures Div(Div(a, b), c) == Div(a, Div(b, c))
  {
    if !b.absolute && !c.absolute {
      assert (a.parts + b.parts) + c.parts == a.parts + (b.parts + c.parts);
    }
  }

  /** A path is its parent joined with its name. */
  lemma ParentSlashName(p: Path)
    requires Valid(p) && Name(p) != ""
    ensures Div(Parent(p), FromString(Name(p))) == p
  {
    FromPart(Name(p));
    assert p.parts[..|p.parts| - 1] + [Name(p)] == p.parts;
  }

  /** The parent of `a / b` is `a` joined with the parent of `b`. */
  lemma ParentOfDiv(a: Path, b: Path)
    requires |b.parts| > 0
    ensures Parent(Div(a, b)) == Div(a, Parent(b))
  {
    if !b.absolute {
      var n := |b.parts|;
      assert (a.parts + b.parts)[..|a.parts| + n - 1] == a.parts + b.parts[..n - 1];
    }
  }

  /** Joining valid paths gives a valid path. */
  lemma DivValid(a: Path, b: Path)
    requires Valid(a) && Valid(b)
    ensures Valid(Div(a, b))
  {
    if !b.absolute {
      forall i | 0 <= i < |a.parts| + |b.parts|
        ensures IsPart((a.parts + b.parts)[i])
      {
        if i >= |a.parts| {
          assert (a.parts + b.parts)[i] == b.parts[i - |a.parts|];
        }
      }
    }
  }
}
