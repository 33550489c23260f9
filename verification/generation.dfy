/** Field matching and statement generation in `actionPerformed`: one setter call per
    target field. */
module Generation {
  import opened Wrappers
  import opened Chars
  import opened Naming

  /** One target field and whether the source class has a field of the same name. */
  datatype MatchResult = MatchResult(field: string, hasSource: bool)

  /** Each target field, in target order and with duplicates, tested for exact
      (case-sensitive) membership among the source fields. */
  function MatchFields(targetFields: seq<string>, sourceFields: seq<string>): (r: seq<MatchResult>)
    ensures |r| == |targetFields|
    ensures forall k :: 0 <= k < |r| ==> r[k].field == targetFields[k]
    ensures forall k :: 0 <= k < |r| ==> (r[k].hasSource <==> exists j :: 0 <= j < |sourceFields| && sourceFields[j] == targetFields[k])
  {
    seq(|targetFields|, k requires 0 <= k < |targetFields| => MatchResult(targetFields[k], targetFields[k] in sourceFields))
  }

  /** How string interpolation renders the nullable target object name. */
  function Render(obj: Option<string>): (r: string)
    ensures obj.None? ==> r == "null"
    ensures obj.Some? ==> r == obj.value
  {
    obj.GetOr("null")
  }

  /** The statement for one field: a setter call on `obj`, whose argument is the
      matching getter call on `from` when the source has the field, and empty otherwise. */
  function Statement(m: MatchResult, obj: string, from: string): (r: string)
    // the copying statement is strictly longer than the placeholder `obj.setField();`
    ensures m.hasSource <==> |r| > |obj| + 4 + |m.field| + 3
  {
    var cap := Capitalize(m.field);
    if m.hasSource then obj + ".set" + cap + "(" + from + ".get" + cap + "());"
    else obj + ".set" + cap + "();"
  }

  /** The statements generated for a target class, given the source class's fields and
      the two object names. */
  function Generate(targetFields: seq<string>, sourceFields: seq<string>, obj: Option<string>, from: string): (r: seq<string>)
    ensures |r| == |targetFields|
    ensures forall k :: 0 <= k < |r| && targetFields[k] in sourceFields ==>
      r[k] == Render(obj) + ".set" + Capitalize(targetFields[k]) + "(" + from + ".get" + Capitalize(targetFields[k]) + "());"
    ensures forall k :: 0 <= k < |r| && targetFields[k] !in sourceFields ==>
      r[k] == Render(obj) + ".set" + Capitalize(targetFields[k]) + "();"
  {
    var matches := MatchFields(targetFields, sourceFields);
    seq(|matches|, k requires 0 <= k < |matches| => Statement(matches[k], Render(obj), from))
  }

  /** Generation follows target order: generating for a concatenation is the
      concatenation of the generated parts. */
  lemma GenerateAppend(t1: seq<string>, t2: seq<string>, sourceFields: seq<string>, obj: Option<string>, from: string)
    ensures Generate(t1 + t2, sourceFields, obj, from)
         == Generate(t1, sourceFields, obj, from) + Generate(t2, sourceFields, obj, from)
  {
    var g := Generate(t1 + t2, sourceFields, obj, from);
    var g1 := Generate(t1, sourceFields, obj, from);
    var g2 := Generate(t2, sourceFields, obj, from);
    assert forall k :: 0 <= k < |g| ==> g[k] == (g1 + g2)[k] by {
      forall k | 0 <= k < |g|
        ensures g[k] == (g1 + g2)[k]
      {
        if k >= |t1| {
          assert (t1 + t2)[k] == t2[k - |t1|];
        }
      }
    }
  }

  /** The source fields matter only through membership of the target fields: extra,
      missing or reordered source-only fields change nothing. */
  lemma GenerateDependsOnlyOnMembership(targetFields: seq<string>, s1: seq<string>, s2: seq<string>, obj: Option<string>, from: string)
    requires forall k :: 0 <= k < |targetFields| ==> (targetFields[k] in s1 <==> targetFields[k] in s2)
    ensures Generate(targetFields, s1, obj, from) == Generate(targetFields, s2, obj, from)
  {
  }

  /** The copying and the placeholder statement for a field always differ, so each
      statement tells whether the field was found on the source side. */
  lemma StatementRevealsMatch(f: string, obj: string, from: string)
    ensures Statement(MatchResult(f, true), obj, from) != Statement(MatchResult(f, false), obj, from)
  {
    assert |Statement(MatchResult(f, true), obj, from)| > |Statement(MatchResult(f, false), obj, from)|;
  }

  /** Every statement is a call of the field's setter on the object, closed by `);`. */
  lemma StatementShape(m: MatchResult, obj: string, from: string)
    ensures var r := Statement(m, obj, from);
      var head := obj + ".set" + Capitalize(m.field) + "(";
      |head| + 2 <= |r| && r[..|head|] == head && r[|r| - 2..] == ");"
  {
    var r := Statement(m, obj, from);
    var head := obj + ".set" + Capitalize(m.field) + "(";
    if m.hasSource {
      var arg := from + ".get" + Capitalize(m.field) + "()";
      assert r == head + arg + ");";
    } else {
      assert r == head + ");";
    }
  }

  /** A statement starts with the first character of the rendered object name (or with
      the `.` of `.set` when that name is empty) and never with whitespace when the name
      does not. */
  lemma GeneratedStartsSolid(targetFields: seq<string>, sourceFields: seq<string>, obj: Option<string>, from: string, k: nat)
    requires k < |targetFields|
    requires obj.Some? && |obj.value| > 0 ==> !IsWhitespace(obj.value[0])
    ensures |Generate(targetFields, sourceFields, obj, from)[k]| > 0
    ensures !IsWhitespace(Generate(targetFields, sourceFields, obj, from)[k][0])
  {
    var r := Render(obj);
    var g := Generate(targetFields, sourceFields, obj, from)[k];
    assert g[..|r|] == r;
    assert g[|r|] == '.';
  }

  /** Generated statements are single lines when the names they are built from are. */
  lemma GeneratedHasNoNewline(targetFields: seq<string>, sourceFields: seq<string>, obj: Option<string>, from: string, k: nat)
    requires k < |targetFields|
    requires '\n' !in targetFields[k] && '\n' !in from && '\n' !in Render(obj)
    ensures '\n' !in Generate(targetFields, sourceFields, obj, from)[k]
  {
  }

  /** The statement for one field of the worked example below. */
  lemma ExampleStatement(f: string, cap: string, hasSource: bool, expected: string)
    requires Capitalize(f) == cap
    requires hasSource ==> expected == "dto.set" + cap + "(user.get" + cap + "());"
    requires !hasSource ==> expected == "dto.set" + cap + "();"
    ensures Statement(MatchResult(f, hasSource), "dto", "user") == expected
  {
  }

  /** The worked example: target fields `id, name, age`, source fields `name, age`,
      target object `dto`, source object `user`. */
  lemma GenerateExample()
    ensures Generate(["id", "name", "age"], ["name", "age"], Some("dto"), "user")
         == ["dto.setId();", "dto.setName(user.getName());", "dto.setAge(user.getAge());"]
  {
    var t, src := ["id", "name", "age"], ["name", "age"];
    assert MatchFields(t, src) == [MatchResult("id", false), MatchResult("name", true), MatchResult("age", true)];
    ExampleStatement("id", "Id", false, "dto.setId();");
    ExampleStatement("name", "Name", true, "dto.setName(user.getName());");
    ExampleStatement("age", "Age", true, "dto.setAge(user.getAge());");
  }

  /** A `null` target object name is rendered literally. */
  lemma GenerateNullObjectExample()
    ensures Generate(["id"], [], None, "user") == ["null.setId();"]
  {
    var g := Generate(["id"], [], None, "user");
    assert Capitalize("id") == "Id";
    assert g[0] == "null.setId();";
  }
}
