/** The insertion `forEach` of `actionPerformed`, at line granularity: the document is a
    sequence of lines (none containing a line break) and the caret is a line index. */
module Insertion {
  import opened Chars
  import opened Whitespace

  /** The block of lines the statements become when each is prefixed with `indent`. */
  function Indented(indent: string, statements: seq<string>): (block: seq<string>)
    ensures |block| == |statements|
    ensures forall k :: 0 <= k < |block| ==> block[k] == indent + statements[k]
  {
    seq(|statements|, k requires 0 <= k < |statements| => indent + statements[k])
  }

  /** `lines` with `block` placed directly below line `anchor`; every other line keeps
      its content and relative order. */
  function Spliced(lines: seq<string>, anchor: nat, block: seq<string>): (r: seq<string>)
    requires anchor < |lines|
    ensures |r| == |lines| + |block|
    ensures r[..anchor + 1] == lines[..anchor + 1]
    ensures forall k :: 0 <= k < |block| ==> r[anchor + 1 + k] == block[k]
    ensures r[anchor + 1 + |block|..] == lines[anchor + 1..]
  {
    lines[..anchor + 1] + block + lines[anchor + 1..]
  }

  /** Inserting one more line right after the block extends the block. */
  lemma SplicedGrow(lines: seq<string>, anchor: nat, block: seq<string>, line: string)
    requires anchor < |lines|
    ensures var s := Spliced(lines, anchor, block);
      s[..anchor + 1 + |block|] + [line] + s[anchor + 1 + |block|..] == Spliced(lines, anchor, block + [line])
  {
    var s := Spliced(lines, anchor, block);
    assert s[..anchor + 1 + |block|] == lines[..anchor + 1] + block;
  }

  /** `line` is `text` preceded by whitespace only. */
  ghost predicate IndentedCopy(line: string, text: string) {
    |text| <= |line| && line[|line| - |text|..] == text && AllWhitespace(line[..|line| - |text|])
  }

  lemma IndentedCopyOf(ws: string, text: string)
    requires AllWhitespace(ws)
    ensures IndentedCopy(ws + text, text)
  {
    var line := ws + text;
    assert line[|line| - |text|..] == text;
    assert line[..|line| - |text|] == ws;
  }

  lemma CopiesExtend(block: seq<string>, statements: seq<string>, line: string)
    requires |block| < |statements|
    requires forall k :: 0 <= k < |block| ==> IndentedCopy(block[k], statements[k])
    requires IndentedCopy(line, statements[|block|])
    ensures forall k :: 0 <= k < |block| + 1 ==> IndentedCopy((block + [line])[k], statements[k])
  {
  }

  /** Indenting one more statement extends the indented block by one line. */
  lemma IndentedExtend(indent: string, statements: seq<string>, i: nat)
    requires i < |statements|
    ensures Indented(indent, statements[..i]) + [indent + statements[i]] == Indented(indent, statements[..i + 1])
  {
  }

  /** Every statement starts with a non-whitespace character. */
  ghost predicate StartSolid(statements: seq<string>) {
    forall k :: 0 <= k < |statements| ==> |statements[k]| > 0 && !IsWhitespace(statements[k][0])
  }

  /** Each statement in turn: read the caret line, take its indentation, insert
      indentation + statement + line break at the start of the next line, and move the
      caret there. Inserting after the last line of the document is out of range and
      throws; `ok` is false then and `result` is the buffer as the failure left it. */
  method InsertStatements(lines: seq<string>, anchor: nat, statements: seq<string>)
      returns (ok: bool, result: seq<string>, caret: nat)
    requires anchor < |lines|
    requires forall k :: 0 <= k < |statements| ==> '\n' !in statements[k]
    ensures ok <==> |statements| == 0 || anchor + 1 < |lines|
    ensures !ok ==> result == lines && caret == anchor
    ensures ok ==> |result| == |lines| + |statements| && caret == anchor + |statements|
    ensures ok ==> result[..anchor + 1] == lines[..anchor + 1]
    ensures ok ==> result[anchor + 1 + |statements|..] == lines[anchor + 1..]
    ensures ok ==> forall k :: 0 <= k < |statements| ==> IndentedCopy(result[anchor + 1 + k], statements[k])
    ensures ok && StartSolid(statements) ==>
      result == Spliced(lines, anchor, Indented(Indentation(lines[anchor]), statements))
  {
    var indent := Indentation(lines[anchor]);
    ghost var block: seq<string> := [];
    result, caret := lines, anchor;
    assert lines[..anchor + 1] + [] + lines[anchor + 1..] == lines;
    var i := 0;
    while i < |statements|
      invariant i <= |statements| && |block| == i
      invariant caret == anchor + i
      invariant result == Spliced(lines, anchor, block)
      invariant forall k :: 0 <= k < i ==> IndentedCopy(block[k], statements[k])
      invariant i > 0 ==> anchor + 1 < |lines|
      invariant StartSolid(statements) ==> block == Indented(indent, statements[..i])
    {
      if caret + 1 >= |result| {
        ok := false;
        return;
      }
      var lineText := if i == 0 then lines[anchor] else block[i - 1];
      assert result[caret] == lineText;
      var indentString := Indentation(result[caret]);
      var inserted := indentString + statements[i];
      IndentedCopyOf(indentString, statements[i]);
      if StartSolid(statements) {
        if i > 0 {
          assert block[i - 1] == indent + statements[i - 1];
          assert |statements[i - 1]| > 0 && !IsWhitespace(statements[i - 1][0]);
          IndentationOfIndented(indent, statements[i - 1]);
        }
        assert indentString == indent;
        IndentedExtend(indent, statements, i);
      }
      CopiesExtend(block, statements, inserted);
      SplicedGrow(lines, anchor, block, inserted);
      result := result[..caret + 1] + [inserted] + result[caret + 1..];
      caret := caret + 1;
      block := block + [inserted];
      i := i + 1;
    }
    ok := true;
    assert statements[..i] == statements;
  }
}
