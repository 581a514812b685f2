// The code-line counter of the development tools (RBFNodes/dev.py,
// `_numCodeLines`): blank lines, comment lines and docstring blocks are not
// counted.

module RbfDev {
  import opened PyStr

  const Triple: string := "\"\"\""
  const TripleSingle: string := "'''"

  /** A line with leading spaces, then leading newlines, removed. */
  function Stripped(line: string): string
  {
    LStrip(LStrip(line, ' '), '\n')
  }

  predicate HasDelimiter(l: string)
  {
    Contains(l, Triple) || Contains(l, TripleSingle)
  }

  /** A stripped line that never counts: a comment, a blank line, or a
    * line with a docstring delimiter. */
  predicate Skipped(l: string)
  {
    StartsWith(l, "#") || |l| == 0 || HasDelimiter(l)
  }

  /** Whether a docstring block is open after the given lines. A
    * delimiter line closes an open block; otherwise it opens one unless
    * it holds exactly two of either delimiter. */
  function OpenAfter(lines: seq<string>): bool
  {
    if lines == [] then false
    else NextOpen(OpenAfter(lines[..|lines| - 1]), Stripped(lines[|lines| - 1]))
  }

  /** The block state after one more stripped line. */
  function NextOpen(open: bool, l: string): bool
  {
    if StartsWith(l, "#") || |l| == 0 || !HasDelimiter(l) then open
    else !(open || Count(l, Triple) == 2 || Count(l, TripleSingle) == 2)
  }

  /** Line i counts when no block is open before it and it is not
    * skipped. */
  predicate Counted(data: seq<string>, i: nat)
    requires i < |data|
  {
    !OpenAfter(data[..i]) && !Skipped(Stripped(data[i]))
  }

  /** The number of counted lines. */
  function CodeLines(data: seq<string>): (n: nat)
    ensures n <= |data|
  {
    if data == [] then 0
    else
      var k := |data| - 1;
      assert data[..k][..k] == data[..k];
      CodeLinesPrefix(data, k);
      CodeLines(data[..k]) + (if Counted(data, k) then 1 else 0)
  }

  /** Counting over a prefix sees the same lines as over the whole. */
  lemma CodeLinesPrefix(data: seq<string>, k: nat)
    requires k < |data|
    ensures Counted(data, k) == Counted(data[..k + 1], k)
  {
    assert data[..k + 1][..k] == data[..k];
  }

  /** One more line adds one to the count exactly when it is counted, and
    * moves the block state on by that line. */
  lemma CodeLinesStep(data: seq<string>, i: nat)
    requires i < |data|
    ensures CodeLines(data[..i + 1]) == CodeLines(data[..i]) + (if Counted(data, i) then 1 else 0)
    ensures OpenAfter(data[..i + 1]) == NextOpen(OpenAfter(data[..i]), Stripped(data[i]))
  {
    assert data[..i + 1][..i] == data[..i];
    CodeLinesPrefix(data, i);
  }

  /** `_numCodeLines`. */
  method NumCodeLines(data: seq<string>) returns (numLines: nat)
    ensures numLines == CodeLines(data)
  {
    var startDoc := false;
    var add := true;
    numLines := 0;
    var i := 0;
    while i < |data|
      invariant 0 <= i <= |data|
      invariant startDoc == OpenAfter(data[..i])
      invariant startDoc ==> !add
      invariant numLines == CodeLines(data[..i])
    {
      if !startDoc {
        add := true;
      }
      var line := Stripped(data[i]);
      if StartsWith(line, "#") || |line| == 0 {
        add := false;
      } else if Contains(line, Triple) || Contains(line, TripleSingle) {
        add := false;
        if startDoc || Count(line, Triple) == 2 || Count(line, TripleSingle) == 2 {
          startDoc := false;
        } else {
          startDoc := true;
        }
      }
      CodeLinesStep(data, i);
      assert add == Counted(data, i);
      if add {
        numLines := numLines + 1;
      }
      i := i + 1;
    }
    assert data[..i] == data;
  }

  /** Inside an open block nothing counts, and a comment, blank or
    * delimiter line never counts. */
  lemma NotCounted(data: seq<string>, i: nat)
    requires i < |data|
    ensures OpenAfter(data[..i]) ==> !Counted(data, i)
    ensures StartsWith(Stripped(data[i]), "#") || Stripped(data[i]) == [] || HasDelimiter(Stripped(data[i])) ==> !Counted(data, i)
  {
  }
}
