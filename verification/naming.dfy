/** The two first-character case rules: `capitalize` for accessor names and the
    `replaceFirstChar` rule that turns the clipboard class name into a variable name. */
module Naming {
  import opened Chars

  /** `name.capitalize()`: the first character upper-cased when it is a lower-case letter. */
  function Capitalize(name: string): (r: string)
    ensures |r| == |name|
    ensures forall k :: 1 <= k < |name| ==> r[k] == name[k]
    ensures |name| > 0 ==> !IsLower(r[0])
    ensures |name| > 0 && IsLower(name[0]) ==> IsUpper(r[0]) && ToLower(r[0]) == name[0]
    ensures |name| > 0 && !IsLower(name[0]) ==> r == name
  {
    if |name| > 0 && IsLower(name[0]) then [ToUpper(name[0])] + name[1..] else name
  }

  /** The source object name: the clipboard class name with its first character
      lower-cased when it is upper case, every other character kept. */
  function SourceObjectName(className: string): (r: string)
    ensures |r| == |className|
    ensures forall k :: 1 <= k < |className| ==> r[k] == className[k]
    ensures |className| > 0 ==> !IsUpper(r[0])
    ensures |className| > 0 && IsUpper(className[0]) ==> IsLower(r[0]) && ToUpper(r[0]) == className[0]
    ensures |className| == 0 || !IsUpper(className[0]) ==> r == className
  {
    if |className| > 0 && IsUpper(className[0]) then [ToLower(className[0])] + className[1..]
    else className
  }

  /** Deriving the variable name from a variable name changes nothing. */
  lemma SourceObjectNameIdempotent(className: string)
    ensures SourceObjectName(SourceObjectName(className)) == SourceObjectName(className)
  {
  }

  /** Capitalizing an accessor suffix a second time changes nothing. */
  lemma CapitalizeIdempotent(name: string)
    ensures Capitalize(Capitalize(name)) == Capitalize(name)
  {
  }

  /** Capitalizing the derived variable name gives back the class name exactly when
      the class name does not start with a lower-case letter. */
  lemma CapitalizeUndoesSourceObjectName(className: string)
    ensures Capitalize(SourceObjectName(className)) == className
        <==> |className| == 0 || !IsLower(className[0])
  {
    if |className| > 0 && IsUpper(className[0]) {
      assert [className[0]] + className[1..] == className;
    }
  }
}
