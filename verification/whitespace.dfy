/** `getIndentation`: the leading whitespace of a line, computed through `trimStart`. */
module Whitespace {
  import opened Chars

  ghost predicate AllWhitespace(s: string) {
    forall p :: 0 <= p < |s| ==> IsWhitespace(s[p])
  }

  /** `String.trimStart()`: the line with its leading whitespace removed. */
  function TrimStart(s: string): (r: string)
    ensures |r| <= |s| && r == s[|s| - |r|..]
    ensures AllWhitespace(s[..|s| - |r|])
    ensures |r| == 0 || !IsWhitespace(r[0])
    decreases |s|
  {
    if |s| > 0 && IsWhitespace(s[0]) then TrimStart(s[1..]) else s
  }

  /** `getIndentation(lineText)`: the prefix whose length is what `trimStart` removed,
      or `""` when it removed nothing. */
  function Indentation(line: string): (r: string)
    ensures |r| <= |line| && r == line[..|r|]
    ensures AllWhitespace(r)
    ensures |r| == |line| || !IsWhitespace(line[|r|])
  {
    var n := |line| - |TrimStart(line)|;
    if n > 0 then line[..n] else ""
  }

  /** The indentation is the only whitespace prefix followed by a non-whitespace
      character or the end of the line, hence the longest whitespace prefix. */
  lemma IndentationUnique(line: string, ind: string)
    requires |ind| <= |line| && ind == line[..|ind|]
    requires AllWhitespace(ind)
    requires |ind| == |line| || !IsWhitespace(line[|ind|])
    ensures Indentation(line) == ind
  {
  }

  /** The indentation of an indentation is itself. */
  lemma IndentationIdempotent(line: string)
    ensures Indentation(Indentation(line)) == Indentation(line)
  {
    var r := Indentation(line);
    IndentationUnique(r, r);
  }

  /** A line starting with a non-whitespace character has no indentation. */
  lemma IndentationOfSolidLine(line: string)
    requires |line| > 0 && !IsWhitespace(line[0])
    ensures Indentation(line) == ""
  {
    IndentationUnique(line, "");
  }

  /** Prefixing whitespace to text that starts solid yields a line whose indentation
      is exactly that whitespace. */
  lemma IndentationOfIndented(ind: string, text: string)
    requires AllWhitespace(ind)
    requires |text| > 0 && !IsWhitespace(text[0])
    ensures Indentation(ind + text) == ind
  {
    var line := ind + text;
    assert line[..|ind|] == ind;
    assert line[|ind|] == text[0];
    IndentationUnique(line, ind);
  }
}
