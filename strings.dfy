/**
 * The few `str` operations the core relies on, over `seq<char>`. `strip`
 * removes exactly the characters `str.isspace` accepts; `lower` is modelled
 * on ASCII letters only.
 */
module Strings {
  import opened Wrappers

  /** `sep.join(pieces)` for a one-character separator. */
  function Join(pieces: seq<string>, sep: char): string
  {
    if |pieces| == 0 then ""
    else if |pieces| == 1 then pieces[0]
    else pieces[0] + [sep] + Join(pieces[1..], sep)
  }

  /** `s.split(sep)`: at least one piece, no piece holds `sep`, and joining gives `s` back. */
  function Split(s: string, sep: char): (pieces: seq<string>)
    ensures |pieces| >= 1
    ensures forall i :: 0 <= i < |pieces| ==> sep !in pieces[i]
    ensures Join(pieces, sep) == s
  {
    if s == [] then [""]
    else
      var rest := Split(s[1..], sep);
      if s[0] == sep then
        assert ([""] + rest)[1..] == rest;
        [""] + rest
      else
        var pieces := [[s[0]] + rest[0]] + rest[1..];
        assert pieces[1..] == rest[1..];
        assert forall i :: 1 <= i < |pieces| ==> pieces[i] == rest[i];
        pieces
  }

  lemma {:induction false} SplitAfterPiece(x: string, y: string, sep: char)
    requires sep !in x
    ensures Split(x + y, sep) == [x + Split(y, sep)[0]] + Split(y, sep)[1..]
    decreases |x|
  {
    if x != [] {
      var ys := Split(y, sep);
      assert (x + y)[0] == x[0] != sep;
      assert (x + y)[1..] == x[1..] + y;
      SplitAfterPiece(x[1..], y, sep);
      var rest := Split(x[1..] + y, sep);
      assert rest[0] == x[1..] + ys[0] && rest[1..] == ys[1..];
      assert Split(x + y, sep) == [[x[0]] + rest[0]] + rest[1..];
      assert [x[0]] + (x[1..] + ys[0]) == x + ys[0];
    } else {
      var ys := Split(y, sep);
      assert x + y == y;
      assert x + ys[0] == ys[0];
      assert ys == [ys[0]] + ys[1..];
    }
  }

  /** Splitting undoes joining when no piece holds the separator. */
  lemma {:induction false} SplitJoin(pieces: seq<string>, sep: char)
    requires |pieces| >= 1
    requires forall i :: 0 <= i < |pieces| ==> sep !in pieces[i]
    ensures Split(Join(pieces, sep), sep) == pieces
  {
    if |pieces| == 1 {
      SplitAfterPiece(pieces[0], "", sep);
      assert pieces[0] + "" == pieces[0];
    } else {
      var rest := Join(pieces[1..], sep);
      var tail := [sep] + rest;
      SplitJoin(pieces[1..], sep);
      assert tail[1..] == rest;
      assert Split(tail, sep) == [""] + pieces[1..];
      assert Join(pieces, sep) == pieces[0] + tail;
      SplitAfterPiece(pieces[0], tail, sep);
      assert pieces[0] + "" == pieces[0];
      assert ([""] + pieces[1..])[1..] == pieces[1..];
      assert pieces == [pieces[0]] + pieces[1..];
    }
  }

  /** Joining one more piece adds the separator and the piece at the end. */
  lemma {:induction false} JoinSnoc(pieces: seq<string>, last: string, sep: char)
    requires |pieces| >= 1
    ensures Join(pieces + [last], sep) == Join(pieces, sep) + [sep] + last
    decreases |pieces|
  {
    if |pieces| > 1 {
      JoinSnoc(pieces[1..], last, sep);
      assert (pieces + [last])[1..] == pieces[1..] + [last];
    }
  }

  /** A joined text ends with its last piece. */
  lemma {:induction false} JoinEndsWithLast(pieces: seq<string>, sep: char)
    requires |pieces| >= 1 && pieces[|pieces| - 1] != ""
    ensures var j := Join(pieces, sep);
            |j| >= 1 && j[|j| - 1] == pieces[|pieces| - 1][|pieces[|pieces| - 1]| - 1]
    decreases |pieces|
  {
    if |pieces| > 1 {
      JoinEndsWithLast(pieces[1..], sep);
    }
  }

  /** `sub` spells the window of `s` starting at `i`. */
  predicate OccursAt(s: string, sub: string, i: int)
  {
    0 <= i && i + |sub| <= |s| && s[i..i + |sub|] == sub
  }

  /** `sub in s`: some window of `s` spells `sub`. */
  function Contains(s: string, sub: string): (r: bool)
    ensures r <==> exists i :: OccursAt(s, sub, i)
    decreases |s|
  {
    if |sub| > |s| then false
    else if s[..|sub|] == sub then
      assert OccursAt(s, sub, 0);
      true
    else
      OccursInTail(s, sub);
      Contains(s[1..], sub)
  }

  /** Past a first position where `sub` does not occur, the occurrences are those in the tail. */
  lemma OccursInTail(s: string, sub: string)
    requires s != [] && !OccursAt(s, sub, 0)
    ensures (exists i :: OccursAt(s, sub, i)) <==> (exists i :: OccursAt(s[1..], sub, i))
  {
    forall i | OccursAt(s, sub, i)
      ensures OccursAt(s[1..], sub, i - 1)
    {
      assert s[1..][i - 1..i - 1 + |sub|] == s[i..i + |sub|];
    }
    forall j | OccursAt(s[1..], sub, j)
      ensures OccursAt(s, sub, j + 1)
    {
      assert s[1..][j..j + |sub|] == s[j + 1..j + 1 + |sub|];
    }
  }

  /**
   * `c.isspace()`: tab, \n, \v, \f, \r, the separators \x1c-\x1f, space,
   * NEL, no-break space, and the Unicode space and line/paragraph separators.
   */
  predicate IsSpace(c: char)
  {
    || ('\t' <= c <= '\r') || ('\U{1C}' <= c <= '\U{1F}') || c == ' '
    || c == '\U{85}' || c == '\U{A0}' || c == '\U{1680}'
    || ('\U{2000}' <= c <= '\U{200A}') || c == '\U{2028}' || c == '\U{2029}'
    || c == '\U{202F}' || c == '\U{205F}' || c == '\U{3000}'
  }

  /** How many whitespace characters `s` starts with. */
  function LeadingSpaces(s: string): (n: nat)
    ensures n <= |s|
    ensures forall k :: 0 <= k < n ==> IsSpace(s[k])
    ensures n == |s| || !IsSpace(s[n])
  {
    if s != [] && IsSpace(s[0]) then 1 + LeadingSpaces(s[1..]) else 0
  }

  /** How many whitespace characters `s` ends with. */
  function TrailingSpaces(s: string): (n: nat)
    ensures n <= |s|
    ensures forall k :: |s| - n <= k < |s| ==> IsSpace(s[k])
    ensures n == |s| || !IsSpace(s[|s| - n - 1])
  {
    if s != [] && IsSpace(s[|s| - 1]) then 1 + TrailingSpaces(s[..|s| - 1]) else 0
  }

  /** `r` is the slice of `s` starting at `a`, and every character of `s` outside that slice is whitespace. */
  predicate SpaceAround(s: string, r: string, a: int)
  {
    && 0 <= a && a + |r| <= |s| && s[a..a + |r|] == r
    && (forall i :: 0 <= i < a ==> IsSpace(s[i]))
    && (forall i :: a + |r| <= i < |s| ==> IsSpace(s[i]))
  }

  /** Whitespace that `TrailingSpaces` counts at the end of a tail of `s` is whitespace of `s`. */
  lemma TrailingOfTail(s: string, a: nat, m: nat)
    requires a <= |s| && m == TrailingSpaces(s[a..])
    ensures forall i :: |s| - m <= i < |s| ==> IsSpace(s[i])
  {
    forall i | |s| - m <= i < |s|
      ensures IsSpace(s[i])
    {
      assert s[a..][i - a] == s[i];
    }
  }

  /** Cutting the leading and then the trailing whitespace leaves a window with only whitespace around it. */
  lemma StripWindow(s: string, a: nat, m: nat)
    requires a == LeadingSpaces(s) && m == TrailingSpaces(s[a..])
    ensures SpaceAround(s, s[a..|s| - m], a)
  {
    TrailingOfTail(s, a, m);
    assert a + |s[a..|s| - m]| == |s| - m;
  }

  /**
   * `s.strip()`: a slice of `s` with only whitespace around it, which itself
   * neither starts nor ends with whitespace; these two facts fix it.
   */
  function Strip(s: string): (r: string)
    ensures exists a :: SpaceAround(s, r, a)
    ensures r == [] || (!IsSpace(r[0]) && !IsSpace(r[|r| - 1]))
  {
    var a := LeadingSpaces(s);
    var m := TrailingSpaces(s[a..]);
    StripWindow(s, a, m);
    assert a < |s| - m ==> s[|s| - m - 1] == s[a..][|s| - a - m - 1];
    s[a..|s| - m]
  }

  function LowerChar(c: char): char
  {
    if 'A' <= c <= 'Z' then (c as int + 32) as char else c
  }

  /**
   * `s.lower()` on ASCII letters: each upper-case letter becomes the letter
   * 32 code points on, everything else stays, and no upper-case letter is left.
   */
  function Lower(s: string): (r: string)
    ensures |r| == |s|
    ensures forall i :: 0 <= i < |s| && 'A' <= s[i] <= 'Z' ==> r[i] as int == s[i] as int + 32
    ensures forall i :: 0 <= i < |s| && !('A' <= s[i] <= 'Z') ==> r[i] == s[i]
    ensures forall i :: 0 <= i < |r| ==> !('A' <= r[i] <= 'Z')
  {
    seq(|s|, i requires 0 <= i < |s| => LowerChar(s[i]))
  }

  /** Lower-casing works character by character, so it commutes with taking a tail. */
  lemma LowerTail(s: string, k: nat)
    requires k <= |s|
    ensures Lower(s)[k..] == Lower(s[k..])
  {
    assert forall i :: 0 <= i < |s| - k ==> Lower(s)[k..][i] == Lower(s[k..])[i];
  }

  /** Lower-casing a second time changes nothing. */
  lemma LowerIdempotent(s: string)
    ensures Lower(Lower(s)) == Lower(s)
  {
  }

  /** `s.replace(c, d)` for single characters: every `c` becomes `d`, nothing else moves. */
  function ReplaceChar(s: string, c: char, d: char): (r: string)
    ensures |r| == |s|
    ensures forall i :: 0 <= i < |s| && s[i] == c ==> r[i] == d
    ensures forall i :: 0 <= i < |s| && s[i] != c ==> r[i] == s[i]
    ensures c != d ==> c !in r
  {
    seq(|s|, i requires 0 <= i < |s| => if s[i] == c then d else s[i])
  }

  /** `s.rfind(c)`, with -1 as `None`: the position of the last `c`. */
  function LastIndexOf(s: string, c: char): (r: Option<nat>)
    ensures r.None? ==> c !in s
    ensures r.Some? ==> r.value < |s| && s[r.value] == c && c !in s[r.value + 1..]
  {
    if s == [] then None
    else if s[|s| - 1] == c then Some(|s| - 1)
    else
      var r := LastIndexOf(s[..|s| - 1], c);
      assert s == s[..|s| - 1] + [s[|s| - 1]];
      r
  }
}
