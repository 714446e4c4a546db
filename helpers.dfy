/** The pure helpers of karx/utils/helpers.py. */
module Helpers {
  import opened Wrappers
  import opened Strings
  import opened Paths

  /** The characters `sanitize_filename` replaces, in the order it replaces them. */
  const InvalidChars: string := "<>:\"/\\|?*"

  /** What `sanitize_filename` makes of a name, position by position. */
  function Sanitized(s: string): (r: string)
    ensures |r| == |s|
    ensures forall i :: 0 <= i < |s| ==> r[i] !in InvalidChars
    ensures forall i :: 0 <= i < |s| && s[i] in InvalidChars ==> r[i] == '_'
    ensures forall i :: 0 <= i < |s| && s[i] !in InvalidChars ==> r[i] == s[i]
  {
    seq(|s|, i requires 0 <= i < |s| => if s[i] in InvalidChars then '_' else s[i])
  }

  /** Sanitizing twice changes nothing more, and a clean name is left alone. */
  lemma SanitizedIdempotent(s: string)
    ensures Sanitized(Sanitized(s)) == Sanitized(s)
    ensures (forall i :: 0 <= i < |s| ==> s[i] !in InvalidChars) ==> Sanitized(s) == s
  {
  }

  /** `sanitize_filename`: one `str.replace` pass per invalid character. */
  method SanitizeFilename(filename: string) returns (r: string)
    ensures r == Sanitized(filename)
  {
    r := filename;
    for k := 0 to |InvalidChars|
      invariant |r| == |filename|
      invariant forall i :: 0 <= i < |r| ==>
                  r[i] == if filename[i] in InvalidChars[..k] then '_' else filename[i]
    {
      assert InvalidChars[..k + 1] == InvalidChars[..k] + [InvalidChars[k]];
      r := ReplaceChar(r, InvalidChars[k], '_');
    }
    assert InvalidChars[..|InvalidChars|] == InvalidChars;
  }

  /** `get_file_type`: the suffix, lower-cased, without its dot; "" when there is none. */
  function GetFileType(p: PurePath): (r: string)
    ensures r == "" <==> Suffix(p) == ""
    ensures r != "" ==> |r| + 1 == |Suffix(p)| && '.' !in r
    ensures r == Lower(Name(p)[|Name(p)| - |r|..])
    ensures forall i :: 0 <= i < |r| ==> !('A' <= r[i] <= 'Z')
  {
    var sfx := Suffix(p);
    if sfx == "" then ""
    else
      var name := Name(p);
      LowerTail(sfx, 1);
      assert name[|name| - (|sfx| - 1)..] == sfx[1..];
      Lower(sfx)[1..]
  }

  /** `get_relative_path`: `path` below `relativeTo` (the working directory by default), or `path` itself. */
  function GetRelativePath(path: PurePath, relativeTo: Option<PurePath>, cwd: PurePath): (r: PurePath)
    ensures var base := if relativeTo.Some? then relativeTo.value else cwd;
            && (IsRelativeTo(path, base) ==> !r.absolute && JoinPath(base, r) == path)
            && (!IsRelativeTo(path, base) ==> r == path)
  {
    var base := if relativeTo.Some? then relativeTo.value else cwd;
    match RelativeTo(path, base)
    case Some(rel) => rel
    case None => path
  }
}
