/**
 * The part of `pathlib` (POSIX flavour) that the core relies on. A path is
 * whether it is anchored at the root and the sequence of its parts below the
 * anchor; comparisons between paths are by whole parts.
 */
module Paths {
  import opened Wrappers
  import opened Strings

  datatype Path = Path(absolute: bool, parts: seq<string>)

  /** A part as pathlib keeps it: never empty, never ".", never holding '/'. */
  predicate IsPart(s: string)
  {
    s != "" && s != "." && '/' !in s
  }

  predicate WellFormed(p: Path)
  {
    forall i :: 0 <= i < |p.parts| ==> IsPart(p.parts[i])
  }

  /** The values of `pathlib.PurePosixPath`. */
  type PurePath = p: Path | WellFormed(p) witness Path(false, [])

  /** What `Path.resolve()` produces: absolute, with no ".." part left. */
  predicate Resolved(p: Path)
  {
    p.absolute && WellFormed(p) && ".." !in p.parts
  }

  /** The pieces of a split string that pathlib keeps as parts. */
  function KeepParts(pieces: seq<string>): (parts: seq<string>)
    requires forall i :: 0 <= i < |pieces| ==> '/' !in pieces[i]
    ensures forall i :: 0 <= i < |parts| ==> IsPart(parts[i])
    ensures (forall i :: 0 <= i < |pieces| ==> IsPart(pieces[i])) ==> parts == pieces
    ensures forall x :: x in parts <==> x in pieces && IsPart(x)
  {
    if pieces == [] then []
    else if pieces[0] == "" || pieces[0] == "." then KeepParts(pieces[1..])
    else
      var rest := KeepParts(pieces[1..]);
      assert forall i :: 1 <= i < |[pieces[0]] + rest| ==> ([pieces[0]] + rest)[i] == rest[i - 1];
      [pieces[0]] + rest
  }

  /** Filtering keeps a lone piece exactly when it is a real part. */
  lemma KeepPartsSingle(x: string)
    requires '/' !in x
    ensures KeepParts([x]) == if IsPart(x) then [x] else []
  {
    assert [x][1..] == [];
  }

  /** Filtering works piece by piece, so it keeps the order of the pieces it keeps. */
  lemma {:induction false} KeepPartsConcat(a: seq<string>, b: seq<string>)
    requires forall i :: 0 <= i < |a| ==> '/' !in a[i]
    requires forall i :: 0 <= i < |b| ==> '/' !in b[i]
    ensures KeepParts(a + b) == KeepParts(a) + KeepParts(b)
  {
    if a == [] {
      assert a + b == b;
    } else {
      assert (a + b)[0] == a[0] && (a + b)[1..] == a[1..] + b;
      KeepPartsConcat(a[1..], b);
    }
  }

  /** `PurePosixPath(s)`: absolute iff `s` starts with '/', its parts the pieces between slashes other than "" and ".". */
  function Parse(s: string): (p: PurePath)
    ensures p.absolute <==> |s| > 0 && s[0] == '/'
    ensures forall x :: x in p.parts <==> x in Split(s, '/') && IsPart(x)
  {
    Path(|s| > 0 && s[0] == '/', KeepParts(Split(s, '/')))
  }

  /** `str(p)`: never empty, and starting with '/' exactly for an absolute path. */
  function Format(p: PurePath): (s: string)
    ensures s != ""
    ensures s[0] == '/' <==> p.absolute
  {
    if p.absolute then "/" + Join(p.parts, '/')
    else if p.parts == [] then "."
    else
      JoinStartsWithFirst(p.parts, '/');
      Join(p.parts, '/')
  }

  /** Printing a path and parsing the text gives the same path back. */
  lemma ParseFormat(p: PurePath)
    ensures Parse(Format(p)) == p
  {
    var text := Format(p);
    if p.absolute {
      var joined := Join(p.parts, '/');
      if p.parts == [] {
        assert text == "/";
        assert Split(text, '/') == ["", ""];
      } else {
        SplitJoin(p.parts, '/');
        assert text[1..] == joined;
        assert Split(text, '/') == [""] + p.parts;
        assert ([""] + p.parts)[1..] == p.parts;
      }
    } else if p.parts == [] {
      assert text == ".";
      assert Split(text, '/') == ["."];
    } else {
      SplitJoin(p.parts, '/');
      JoinStartsWithFirst(p.parts, '/');
      assert text[0] == p.parts[0][0] != '/';
    }
  }

  lemma {:induction false} JoinStartsWithFirst(pieces: seq<string>, sep: char)
    requires |pieces| >= 1 && pieces[0] != ""
    ensures Join(pieces, sep) != "" && Join(pieces, sep)[0] == pieces[0][0]
  {
  }

  /** Walks `parts` from `base` the way `os.path.realpath` does without symlinks: ".." steps up, never above the root. */
  function Walk(base: seq<string>, parts: seq<string>): (r: seq<string>)
    requires forall i :: 0 <= i < |base| ==> IsPart(base[i]) && base[i] != ".."
    requires forall i :: 0 <= i < |parts| ==> IsPart(parts[i])
    ensures forall i :: 0 <= i < |r| ==> IsPart(r[i]) && r[i] != ".."
    ensures ".." !in parts ==> r == base + parts
    decreases |parts|
  {
    if parts == [] then base
    else if parts[0] == ".." then Walk(if base == [] then [] else base[..|base| - 1], parts[1..])
    else
      var r := Walk(base + [parts[0]], parts[1..]);
      assert ".." !in parts ==> ".." !in parts[1..];
      assert base + [parts[0]] + parts[1..] == base + parts;
      r
  }

  /** `p.resolve()` against the working directory `cwd`, leaving out symbolic links. */
  function Resolve(cwd: Path, p: PurePath): (r: PurePath)
    requires Resolved(cwd)
    ensures Resolved(r)
    ensures Resolved(p) ==> r == p
  {
    Path(true, Walk(if p.absolute then [] else cwd.parts, p.parts))
  }

  /** `p.is_relative_to(base)`: `base` is `p` or one of its ancestors, i.e. `p` is `base` with parts appended. */
  predicate IsRelativeTo(p: Path, base: Path): (r: bool)
    ensures r <==> p.absolute == base.absolute && exists rest :: p.parts == base.parts + rest
  {
    if p.absolute == base.absolute && |base.parts| <= |p.parts| && p.parts[..|base.parts|] == base.parts then
      assert p.parts == base.parts + p.parts[|base.parts|..];
      true
    else
      assert forall rest :: p.parts == base.parts + rest ==> p.parts[..|base.parts|] == base.parts;
      false
  }

  /** `base / rel`. */
  function JoinPath(base: PurePath, rel: PurePath): PurePath
  {
    if rel.absolute then rel else Path(base.absolute, base.parts + rel.parts)
  }

  /** `p.relative_to(base)`, `None` where pathlib raises `ValueError`. */
  function RelativeTo(p: PurePath, base: PurePath): (r: Option<PurePath>)
    ensures r.Some? <==> IsRelativeTo(p, base)
    ensures r.Some? ==> !r.value.absolute && JoinPath(base, r.value) == p
  {
    if IsRelativeTo(p, base) then
      var rel := Path(false, p.parts[|base.parts|..]);
      assert base.parts + rel.parts == p.parts;
      Some(rel)
    else None
  }

  /** Relative paths appended to `base` come back out of `relative_to`. */
  lemma RelativeToJoin(base: PurePath, rel: PurePath)
    requires !rel.absolute
    ensures RelativeTo(JoinPath(base, rel), base) == Some(rel)
  {
    var p := JoinPath(base, rel);
    assert p.parts[..|base.parts|] == base.parts;
    assert p.parts[|base.parts|..] == rel.parts;
  }

  /** `p.name`: the last part, or "" for the root and for "."; never holding '/'. */
  function Name(p: PurePath): (r: string)
    ensures r == "" <==> p.parts == []
    ensures '/' !in r && r != "."
  {
    if p.parts == [] then "" else p.parts[|p.parts| - 1]
  }

  /** `p.suffix`: from the last dot of the name, provided the dot neither starts nor ends it. */
  function Suffix(p: PurePath): (r: string)
    ensures r != [] ==> |r| >= 2 && r[0] == '.' && '.' !in r[1..]
    ensures r != [] ==> |r| < |Name(p)| && r == Name(p)[|Name(p)| - |r|..]
    ensures r == [] <==> match LastIndexOf(Name(p), '.')
                         case None => true
                         case Some(i) => i == 0 || i == |Name(p)| - 1
  {
    var name := Name(p);
    match LastIndexOf(name, '.')
    case Some(i) => if 0 < i < |name| - 1 then name[i..] else ""
    case None => ""
  }
}
