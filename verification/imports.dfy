/** The import lookup of `actionPerformed`: collecting the file's imports and picking the
    first qualified name one of whose `.`-separated segments is exactly a given class name. */
module Imports {
  import opened Wrappers

  const Dot: char := '.'

  /** Concatenation of `parts` with `d` between neighbours (`joinToString`). */
  function Join(parts: seq<string>, d: char): string
  {
    if |parts| == 0 then ""
    else if |parts| == 1 then parts[0]
    else parts[0] + [d] + Join(parts[1..], d)
  }

  /** Kotlin's `String.split(d)`: the pieces between separators, with empty
      pieces (leading, inner and trailing) kept. */
  function Split(s: string, d: char): (parts: seq<string>)
    ensures |parts| >= 1
    ensures forall k :: 0 <= k < |parts| ==> d !in parts[k]
    ensures Join(parts, d) == s
    decreases |s|
  {
    if |s| == 0 then [""]
    else
      var rest := Split(s[1..], d);
      if s[0] == d then
        assert ([""] + rest)[1..] == rest;
        [""] + rest
      else
        var parts := [[s[0]] + rest[0]] + rest[1..];
        assert parts[1..] == rest[1..];
        assert |rest| > 1 ==> Join(rest, d) == rest[0] + [d] + Join(rest[1..], d);
        parts
  }

  /** Splitting a string without separators gives the string itself. */
  lemma {:induction false} SplitNoSeparator(p: string, d: char)
    requires d !in p
    ensures Split(p, d) == [p]
    decreases |p|
  {
    if |p| > 0 {
      SplitNoSeparator(p[1..], d);
      assert [p[0]] + p[1..] == p;
    }
  }

  /** Splitting `p + [d] + t` with `p` separator-free peels off `p`. */
  lemma {:induction false} SplitCons(p: string, t: string, d: char)
    requires d !in p
    ensures Split(p + [d] + t, d) == [p] + Split(t, d)
    decreases |p|
  {
    var s := p + [d] + t;
    if |p| == 0 {
      assert s[1..] == t;
    } else {
      assert s[1..] == p[1..] + [d] + t;
      SplitCons(p[1..], t, d);
      assert [p[0]] + p[1..] == p;
    }
  }

  /** `split` undoes `joinToString` on separator-free pieces. */
  lemma {:induction false} SplitJoin(parts: seq<string>, d: char)
    requires |parts| >= 1
    requires forall k :: 0 <= k < |parts| ==> d !in parts[k]
    ensures Split(Join(parts, d), d) == parts
    decreases |parts|
  {
    if |parts| == 1 {
      SplitNoSeparator(parts[0], d);
    } else {
      SplitJoin(parts[1..], d);
      SplitCons(parts[0], Join(parts[1..], d), d);
      assert [parts[0]] + parts[1..] == parts;
    }
  }

  /** Every character of a piece occurs in the joined string. */
  lemma {:induction false} PieceCharsInJoin(parts: seq<string>, d: char, k: nat, c: char)
    requires k < |parts| && c in parts[k]
    ensures c in Join(parts, d)
    decreases |parts|
  {
    if |parts| > 1 {
      if k == 0 {
        assert Join(parts, d) == parts[0] + ([d] + Join(parts[1..], d));
      } else {
        PieceCharsInJoin(parts[1..], d, k - 1, c);
      }
    }
  }

  /** A segment of a split string contains only characters of that string. */
  lemma SegmentCharsInString(s: string, name: string, c: char)
    requires name in Split(s, Dot) && c in name
    ensures c in s
  {
    var parts := Split(s, Dot);
    var k :| 0 <= k < |parts| && parts[k] == name;
    PieceCharsInJoin(parts, Dot, k, c);
  }

  /** One of the `.`-separated segments of `item` is exactly `name`. */
  predicate HasSegment(item: string, name: string) {
    name in Split(item, Dot)
  }

  /** The import list as collected: a null qualified name is stored as `""`. */
  function QualifiedNames(statements: seq<Option<string>>): (names: seq<string>)
    ensures |names| == |statements|
    ensures forall k :: 0 <= k < |names| ==>
      (statements[k].Some? ==> names[k] == statements[k].value) && (statements[k].None? ==> names[k] == "")
  {
    seq(|statements|, k requires 0 <= k < |statements| => statements[k].GetOr(""))
  }

  /** `j` is the position where the first-match search stops. */
  ghost predicate IsFirstMatch(items: seq<string>, name: string, j: int) {
    && 0 <= j < |items|
    && HasSegment(items[j], name)
    && forall j' :: 0 <= j' < j ==> !HasSegment(items[j'], name)
  }

  /** The first position at or after `i` whose item has `name` as a segment. */
  function FirstMatchFrom(items: seq<string>, name: string, i: nat): (r: Option<nat>)
    requires i <= |items|
    ensures r.Some? ==> i <= r.value < |items| && HasSegment(items[r.value], name)
    ensures r.Some? ==> forall j :: i <= j < r.value ==> !HasSegment(items[j], name)
    ensures r.None? ==> forall j :: i <= j < |items| ==> !HasSegment(items[j], name)
    decreases |items| - i
  {
    if i == |items| then None
    else if HasSegment(items[i], name) then Some(i)
    else FirstMatchFrom(items, name, i + 1)
  }

  /** The first import having `name` as a segment, as Kotlin's `first` with a predicate
      picks it; `None` stands for the `NoSuchElementException` thrown when none qualifies. */
  function FindImport(items: seq<string>, name: string): (r: Option<string>)
    ensures r.None? <==> forall j :: 0 <= j < |items| ==> !HasSegment(items[j], name)
    ensures r.Some? ==> exists j :: IsFirstMatch(items, name, j) && r.value == items[j]
    // the only segment of `""` is `""`, so an empty import is found only for the empty name
    ensures r == Some("") ==> name == ""
  {
    match FirstMatchFrom(items, name, 0)
    case None => None
    case Some(j) =>
      assert IsFirstMatch(items, name, j);
      assert Split("", Dot) == [""];
      Some(items[j])
  }

  /** The name looked up occurs as a whole segment of what was found, so it holds no
      character the found qualified name does not hold. */
  lemma FoundNameCharsInImport(items: seq<string>, name: string, c: char)
    requires FindImport(items, name).Some? && c in name
    ensures c in FindImport(items, name).value
  {
    var j :| IsFirstMatch(items, name, j) && FindImport(items, name).value == items[j];
    SegmentCharsInString(items[j], name, c);
  }

  /** A null qualified name is collected as `""`, whose only segment is `""`: an empty
      clipboard then finds that entry (or an earlier one with an empty segment). */
  lemma NullImportMatchesEmptyName(statements: seq<Option<string>>, k: nat)
    requires k < |statements| && statements[k].None?
    ensures FindImport(QualifiedNames(statements), "").Some?
  {
    var names := QualifiedNames(statements);
    assert Split(names[k], Dot) == [""];
    assert HasSegment(names[k], "");
  }

  /** The empty clipboard finds the import list's only entry when that entry is null. */
  lemma EmptyNameFindsNullImport()
    ensures FindImport(QualifiedNames([None]), "") == Some("")
  {
    var names := QualifiedNames([None]);
    assert names == [""];
    assert Split("", Dot) == [""];
    assert IsFirstMatch(names, "", 0);
  }

  /** No non-null qualified name has an empty segment (no leading, trailing or doubled dot). */
  predicate NoEmptySegments(statements: seq<Option<string>>) {
    forall k :: 0 <= k < |statements| && statements[k].Some? ==> !HasSegment(statements[k].value, "")
  }

  /** Without empty segments in the non-null names, the empty name can only find a null
      import, which contributes the empty string. */
  lemma EmptyNameFindsOnlyNull(statements: seq<Option<string>>)
    requires NoEmptySegments(statements)
    ensures FindImport(QualifiedNames(statements), "").Some? ==> FindImport(QualifiedNames(statements), "").value == ""
  {
    var names := QualifiedNames(statements);
    if FindImport(names, "").Some? {
      var j :| IsFirstMatch(names, "", j) && FindImport(names, "").value == names[j];
      assert statements[j].None?;
    }
  }
}
