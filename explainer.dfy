/**
 * karx/core/explainer.py: a placeholder explainer that numbers the code
 * lines of a file and labels each one by the first keyword it contains.
 */
module Explainer {
  import opened Wrappers
  import opened Strings

  const AssignmentText: string := "This line assigns a value to a variable"
  const FunctionText: string := "This line defines a function"
  const ClassText: string := "This line defines a class"
  const ReturnText: string := "This line returns a value from a function"
  const ImportText: string := "This line imports a module"
  const CodeText: string := "This line executes some code"

  /** The markers `_explain_line` looks for, in the order it tests them. */
  const Markers: seq<string> := ["=", "def ", "class ", "return ", "import "]

  /** The texts it answers with: `Explanations[k]` for `Markers[k]`, the last one when no marker occurs. */
  const Explanations: seq<string> := [AssignmentText, FunctionText, ClassText, ReturnText, ImportText, CodeText]

  /** The six texts are pairwise different, so a line gets exactly one of them. */
  lemma ExplanationsDistinct()
    ensures |Explanations| == |Markers| + 1
    ensures forall i, j :: 0 <= i < j < |Explanations| ==> Explanations[i] != Explanations[j]
  {
  }

  /** `_explain_line`: an if/elif chain over substring tests; one of the six texts, the assignment one exactly for lines holding "=". */
  function ExplainLine(line: string): (r: string)
    ensures r in Explanations
    ensures r == AssignmentText <==> Contains(line, "=")
  {
    if Contains(line, "=") then AssignmentText
    else if Contains(line, "def ") then FunctionText
    else if Contains(line, "class ") then ClassText
    else if Contains(line, "return ") then ReturnText
    else if Contains(line, "import ") then ImportText
    else CodeText
  }

  /** The text is the one of the first marker the line contains, and the fallback when it has none. */
  lemma ExplainLinePriority(line: string)
    ensures exists k :: 0 <= k < |Explanations| && ExplainLine(line) == Explanations[k]
              && (forall j :: 0 <= j < k ==> !Contains(line, Markers[j]))
              && (k < |Markers| ==> Contains(line, Markers[k]))
  {
    var k := if Contains(line, "=") then 0
             else if Contains(line, "def ") then 1
             else if Contains(line, "class ") then 2
             else if Contains(line, "return ") then 3
             else if Contains(line, "import ") then 4
             else 5;
    assert ExplainLine(line) == Explanations[k];
  }

  /** A line with both "=" and "def " counts as an assignment, because "=" is tested first. */
  lemma AssignmentBeatsDefinition(line: string)
    requires Contains(line, "=") && Contains(line, "def ")
    ensures ExplainLine(line) == AssignmentText
  {
  }

  /**
   * `content.splitlines()`, with '\n' as the only line break: no lines for
   * empty content; otherwise the lines joined by '\n', plus the final '\n'
   * when the content ends with one, give the content back.
   */
  function Lines(content: string): (lines: seq<string>)
    ensures forall i :: 0 <= i < |lines| ==> '\n' !in lines[i]
    ensures content == "" <==> lines == []
    ensures content != "" ==>
              var ending := if content[|content| - 1] == '\n' then "\n" else "";
              Join(lines, '\n') + ending == content
  {
    if content == "" then []
    else
      var pieces := Split(content, '\n');
      var n := |pieces|;
      if pieces[n - 1] == "" then
        assert n >= 2;
        var init := pieces[..n - 1];
        assert pieces == init + [""];
        JoinSnoc(init, "", '\n');
        init
      else
        JoinEndsWithLast(pieces, '\n');
        assert '\n' !in pieces[n - 1];
        pieces
  }

  /** A stripped line that `explain` keeps: not blank and not starting with '#'. */
  predicate Kept(code: string)
  {
    code != "" && code[0] != '#'
  }

  datatype Entry = Entry(lineNumber: nat, code: string, explanation: string)

  /** Every line of the file, stripped. */
  function Codes(lines: seq<string>): (codes: seq<string>)
    ensures |codes| == |lines|
    ensures forall i :: 0 <= i < |lines| ==> codes[i] == Strip(lines[i])
  {
    seq(|lines|, i requires 0 <= i < |lines| => Strip(lines[i]))
  }

  /** The entry `explain` emits for line number `n` (1-based) with stripped text `codes[n - 1]`, if it keeps it. */
  function EntryFor(codes: seq<string>, n: nat): seq<Entry>
    requires 1 <= n <= |codes|
  {
    var code := codes[n - 1];
    if Kept(code) then [Entry(n, code, ExplainLine(code))] else []
  }

  /** What `explain` has collected after the first `n` lines. */
  function Explained(codes: seq<string>, n: nat): (r: seq<Entry>)
    requires n <= |codes|
    ensures |r| <= n
  {
    if n == 0 then [] else Explained(codes, n - 1) + EntryFor(codes, n)
  }

  /** An entry for a kept line, holding its 1-based number, its stripped text and the text's explanation. */
  ghost predicate Describes(codes: seq<string>, e: Entry)
  {
    && 1 <= e.lineNumber <= |codes|
    && e.code == codes[e.lineNumber - 1]
    && Kept(e.code)
    && e.explanation == ExplainLine(e.code)
  }

  /** The entries for the first `n` lines are at most `n`, each describing a kept line among them. */
  lemma {:induction false} ExplainedDescribes(codes: seq<string>, n: nat)
    requires n <= |codes|
    ensures |Explained(codes, n)| <= n
    ensures forall k :: 0 <= k < |Explained(codes, n)| ==>
              Explained(codes, n)[k].lineNumber <= n && Describes(codes, Explained(codes, n)[k])
  {
    if n > 0 {
      ExplainedDescribes(codes, n - 1);
      var before := Explained(codes, n - 1);
      assert forall k :: 0 <= k < |before| ==> Explained(codes, n)[k] == before[k];
    }
  }

  /** Their line numbers strictly increase. */
  lemma {:induction false} ExplainedIncreasing(codes: seq<string>, n: nat)
    requires n <= |codes|
    ensures forall k, l :: 0 <= k < l < |Explained(codes, n)| ==>
              Explained(codes, n)[k].lineNumber < Explained(codes, n)[l].lineNumber
  {
    if n > 0 {
      ExplainedIncreasing(codes, n - 1);
      ExplainedDescribes(codes, n - 1);
      var before := Explained(codes, n - 1);
      var es := Explained(codes, n);
      assert forall k :: 0 <= k < |before| ==> es[k] == before[k];
      assert forall k :: |before| <= k < |es| ==> es[k].lineNumber == n;
    }
  }

  /** Some entry carries line number `i + 1`. */
  ghost predicate Covers(entries: seq<Entry>, i: int)
  {
    exists k :: 0 <= k < |entries| && entries[k].lineNumber == i + 1
  }

  /** No kept line is missing. */
  lemma {:induction false} ExplainedComplete(codes: seq<string>, n: nat)
    requires n <= |codes|
    ensures forall i :: 0 <= i < n && Kept(codes[i]) ==> Covers(Explained(codes, n), i)
  {
    if n > 0 {
      ExplainedComplete(codes, n - 1);
      var before := Explained(codes, n - 1);
      var es := Explained(codes, n);
      assert es == before + EntryFor(codes, n);
      forall i | 0 <= i < n && Kept(codes[i])
        ensures Covers(es, i)
      {
        if i < n - 1 {
          var k :| 0 <= k < |before| && before[k].lineNumber == i + 1;
          assert es[k] == before[k];
        } else {
          assert es[|before|] == Entry(n, codes[n - 1], ExplainLine(codes[n - 1]));
        }
      }
    }
  }

  /**
   * `Explainer.explain`: `content` is the file's text, `None` when reading it
   * raises; `parses` says whether `ast.parse` accepts it.
   */
  method Explain(content: Option<string>, parses: bool) returns (entries: seq<Entry>)
    ensures content.None? || !parses ==> entries == []
    ensures content.Some? && parses ==>
              var codes := Codes(Lines(content.value));
              entries == Explained(codes, |codes|)
  {
    if content.None? || !parses {
      return [];
    }
    var lines := Lines(content.value);
    ghost var codes := Codes(lines);
    entries := [];
    var i := 0;
    while i < |lines|
      invariant 0 <= i <= |lines|
      invariant entries == Explained(codes, i)
    {
      var line := Strip(lines[i]);
      if Kept(line) {
        entries := entries + [Entry(i + 1, line, ExplainLine(line))];
      }
      i := i + 1;
    }
  }
}
