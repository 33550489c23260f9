/** `actionPerformed`: resolve the two classes named by the clipboard and the selection,
    derive the two object names, generate one statement per target field and insert the
    statements below the caret line. IDE services are replaced by a snapshot of their data. */
module Action {
  import opened Wrappers
  import opened Chars
  import opened Imports
  import opened Naming
  import opened Assignee
  import opened Generation
  import opened Whitespace
  import opened Insertion

  /** Notifications shown to the user; none of them stops the action. */
  datatype Notice =
    | ClipboardEmptyWarning  // the clipboard class matched an empty import name
    | BadSelectionWarning    // the selection is missing or empty, or matched an empty import name
    | UnresolvedClassError   // a class could not be resolved

  /** The places where the action throws. */
  datatype Failure =
    | NoMatchingImport  // `first` found no qualifying import (`NoSuchElementException`)
    | NullSelection     // `selectedText!!` on a missing selection
    | NullClass         // `!!` on a class `findClass` did not resolve
    | OffsetOutOfRange  // `insertString` past the end of the document

  /** What the action reads from the IDE: the file's import statements (a qualified name
      may be null), the clipboard text, the selection, the classes `findClass` resolves
      with their field names, the document's lines and the caret line. */
  datatype Editor = Editor(
    imports: seq<Option<string>>,
    clipboard: string,
    selection: Option<string>,
    classes: map<string, seq<string>>,
    lines: seq<string>,
    caret: nat)

  /** A snapshot the IDE can produce: the caret is on a line of the document, and no line,
      qualified name or field name contains a line break. */
  predicate WellFormed(e: Editor) {
    && e.caret < |e.lines|
    && (forall k :: 0 <= k < |e.lines| ==> '\n' !in e.lines[k])
    && (forall k :: 0 <= k < |e.imports| && e.imports[k].Some? ==> '\n' !in e.imports[k].value)
    && (forall q :: q in e.classes ==> forall k :: 0 <= k < |e.classes[q]| ==> '\n' !in e.classes[q][k])
  }

  /** Everything the write command uses: the two field lists and the two object names. */
  datatype Plan = Plan(fromFields: seq<string>, targetFields: seq<string>, fromObject: string, targetObject: Option<string>)

  /** The state reached just before the write command: either a plan, or a throw. */
  datatype Prepared =
    | Ready(notices: seq<Notice>, plan: Plan)
    | Halted(notices: seq<Notice>, failure: Failure)

  /** Class resolution followed by reading the class's field names; `None` when the
      class does not resolve. */
  function FindClass(e: Editor, name: string): (r: Option<seq<string>>)
    ensures r.Some? <==> name in e.classes
    ensures r.Some? ==> r.value == e.classes[name]
  {
    if name in e.classes then Some(e.classes[name]) else None
  }

  /** The action up to the write command. Warnings are recorded and the run goes on;
      it halts only where Kotlin throws. */
  function Prepare(e: Editor): (r: Prepared)
    requires e.caret < |e.lines|
    // no qualifying import for the clipboard: `first` throws before any notice
    ensures FindImport(QualifiedNames(e.imports), e.clipboard).None? ==> r == Halted([], NoMatchingImport)
    // the clipboard warning fires exactly when the clipboard matched an empty import name
    ensures (ClipboardEmptyWarning in r.notices)
        <==> FindImport(QualifiedNames(e.imports), e.clipboard) == Some("")
    // a missing or empty selection is warned about once the clipboard lookup succeeded
    // (`SelectionWarnings` gives the converse and the count)
    ensures FindImport(QualifiedNames(e.imports), e.clipboard).Some? && (e.selection.None? || e.selection.value == "")
        ==> BadSelectionWarning in r.notices
    // a missing selection throws inside the second lookup
    ensures FindImport(QualifiedNames(e.imports), e.clipboard).Some? && e.selection.None?
        ==> r.Halted? && r.failure == NullSelection
    // no qualifying import for the selection
    ensures FindImport(QualifiedNames(e.imports), e.clipboard).Some? && e.selection.Some?
        && FindImport(QualifiedNames(e.imports), e.selection.value).None?
        ==> r.Halted? && r.failure == NoMatchingImport
    // an unresolved class is reported and then dereferenced
    ensures r.Halted? && r.failure == NullClass <==> UnresolvedClassError in r.notices
    // the run reaches the write command exactly when both lookups and both classes succeed
    ensures r.Ready? <==>
      && FindImport(QualifiedNames(e.imports), e.clipboard).Some?
      && e.selection.Some?
      && FindImport(QualifiedNames(e.imports), e.selection.value).Some?
      && FindImport(QualifiedNames(e.imports), e.clipboard).value in e.classes
      && FindImport(QualifiedNames(e.imports), e.selection.value).value in e.classes
    ensures r.Ready? ==> r.plan == Plan(
      e.classes[FindImport(QualifiedNames(e.imports), e.clipboard).value],
      e.classes[FindImport(QualifiedNames(e.imports), e.selection.value).value],
      SourceObjectName(e.clipboard),
      ObjectName(e.lines[e.caret]))
  {
    var names := QualifiedNames(e.imports);
    match FindImport(names, e.clipboard)
    case None => Halted([], NoMatchingImport)
    case Some(fromName) =>
      var n1 := if fromName == "" then [ClipboardEmptyWarning] else [];
      var n2 := n1 + if e.selection.None? || e.selection.value == "" then [BadSelectionWarning] else [];
      if e.selection.None? then Halted(n2, NullSelection)
      else
        match FindImport(names, e.selection.value)
        case None => Halted(n2, NoMatchingImport)
        case Some(targetName) =>
          var n3 := n2 + if targetName == "" then [BadSelectionWarning] else [];
          var fromClass := FindClass(e, fromName);
          var targetClass := FindClass(e, targetName);
          if fromClass.None? || targetClass.None? then Halted(n3 + [UnresolvedClassError], NullClass)
          else Ready(n3, Plan(fromClass.value, targetClass.value, SourceObjectName(e.clipboard), ObjectName(e.lines[e.caret])))
  }

  /** The selection warning fires exactly when the clipboard lookup succeeded and the
      selection is missing or empty. It fires a second time exactly when that empty
      selection also matched an empty import name, which is the only name `""` matches. */
  lemma SelectionWarnings(e: Editor)
    requires e.caret < |e.lines|
    ensures (BadSelectionWarning in Prepare(e).notices)
        <==> FindImport(QualifiedNames(e.imports), e.clipboard).Some? && (e.selection.None? || e.selection.value == "")
    ensures multiset(Prepare(e).notices)[BadSelectionWarning] <= 2
    ensures multiset(Prepare(e).notices)[BadSelectionWarning] == 2
        <==> FindImport(QualifiedNames(e.imports), e.clipboard).Some? && e.selection == Some("")
             && FindImport(QualifiedNames(e.imports), "") == Some("")
  {
    var names := QualifiedNames(e.imports);
    if FindImport(names, e.clipboard).Some? {
      if e.selection.Some? && FindImport(names, e.selection.value).Some? {
        SelectionCountResolved(e);
        if FindImport(names, e.selection.value).value == "" {
          assert e.selection.value == "";
        }
      } else {
        SelectionCountUnresolved(e);
        assert FindImport(names, "") == Some("") ==> FindImport(names, "").Some?;
      }
    }
  }

  /** The selection warnings of a run that got past both import lookups. */
  lemma SelectionCountResolved(e: Editor)
    requires e.caret < |e.lines|
    requires FindImport(QualifiedNames(e.imports), e.clipboard).Some?
    requires e.selection.Some? && FindImport(QualifiedNames(e.imports), e.selection.value).Some?
    ensures multiset(Prepare(e).notices)[BadSelectionWarning]
         == (if e.selection.value == "" then 1 else 0)
          + (if FindImport(QualifiedNames(e.imports), e.selection.value).value == "" then 1 else 0)
  {
    var names := QualifiedNames(e.imports);
    var fromName := FindImport(names, e.clipboard).value;
    var targetName := FindImport(names, e.selection.value).value;
    var n1: seq<Notice> := if fromName == "" then [ClipboardEmptyWarning] else [];
    var w: seq<Notice> := if e.selection.value == "" then [BadSelectionWarning] else [];
    var extra: seq<Notice> := if targetName == "" then [BadSelectionWarning] else [];
    var tail: seq<Notice> := if FindClass(e, fromName).None? || FindClass(e, targetName).None? then [UnresolvedClassError] else [];
    ResolvedNotices(e);
    assert Prepare(e).notices == n1 + w + extra + tail;
    assert multiset(n1)[BadSelectionWarning] == 0 && multiset(tail)[BadSelectionWarning] == 0;
  }

  /** Once both lookups succeed, the notices are the clipboard warning, the two selection
      warnings and the class error, each present or absent, in that order. */
  lemma ResolvedNotices(e: Editor)
    requires e.caret < |e.lines|
    requires FindImport(QualifiedNames(e.imports), e.clipboard).Some?
    requires e.selection.Some? && FindImport(QualifiedNames(e.imports), e.selection.value).Some?
    ensures var fromName := FindImport(QualifiedNames(e.imports), e.clipboard).value;
      var targetName := FindImport(QualifiedNames(e.imports), e.selection.value).value;
      Prepare(e).notices
        == (if fromName == "" then [ClipboardEmptyWarning] else [])
         + (if e.selection.value == "" then [BadSelectionWarning] else [])
         + (if targetName == "" then [BadSelectionWarning] else [])
         + (if fromName !in e.classes || targetName !in e.classes then [UnresolvedClassError] else [])
  {
  }

  /** The selection warnings of a run that stopped at the second import lookup. */
  lemma SelectionCountUnresolved(e: Editor)
    requires e.caret < |e.lines|
    requires FindImport(QualifiedNames(e.imports), e.clipboard).Some?
    requires e.selection.None? || FindImport(QualifiedNames(e.imports), e.selection.value).None?
    ensures multiset(Prepare(e).notices)[BadSelectionWarning]
         == if e.selection.None? || e.selection.value == "" then 1 else 0
  {
    var fromName := FindImport(QualifiedNames(e.imports), e.clipboard).value;
    var n1: seq<Notice> := if fromName == "" then [ClipboardEmptyWarning] else [];
    var w: seq<Notice> := if e.selection.None? || e.selection.value == "" then [BadSelectionWarning] else [];
    assert Prepare(e).notices == n1 + w;
  }

  /** An ordinary run (the clipboard matches a non-empty name and the selection is not
      empty) that reaches the write command shows no notice at all. */
  lemma OrdinaryRunHasNoNotices(e: Editor)
    requires e.caret < |e.lines| && Prepare(e).Ready?
    requires FindImport(QualifiedNames(e.imports), e.clipboard) != Some("")
    requires e.selection.Some? && e.selection.value != ""
    ensures Prepare(e).notices == []
  {
    SelectionWarnings(e);
    var ns := Prepare(e).notices;
    if ns != [] {
      match ns[0]
      case ClipboardEmptyWarning =>
      case BadSelectionWarning =>
      case UnresolvedClassError =>
    }
  }

  /** The statements the write command inserts, in target-field order. */
  function Statements(p: Plan): (r: seq<string>)
    ensures |r| == |p.targetFields|
  {
    Generate(p.targetFields, p.fromFields, p.targetObject, p.fromObject)
  }

  /** The result of one invocation: the notices shown, the document and caret afterwards,
      and the exception that ended the run, if any. */
  datatype Outcome = Outcome(notices: seq<Notice>, lines: seq<string>, caret: nat, failure: Option<Failure>)

  /** A name found by the import lookup comes from a well-formed import list, so it has
      no line break. */
  lemma FoundNameSingleLine(e: Editor, name: string)
    requires WellFormed(e)
    requires FindImport(QualifiedNames(e.imports), name).Some?
    ensures '\n' !in name
  {
    var names := QualifiedNames(e.imports);
    var found := FindImport(names, name).value;
    var j :| IsFirstMatch(names, name, j) && found == names[j];
    assert '\n' !in found;
    if '\n' in name {
      FoundNameCharsInImport(names, name, '\n');
    }
  }

  /** The statements of a plan are single lines starting with a non-whitespace character. */
  lemma PlanStatementsWellShaped(e: Editor)
    requires WellFormed(e) && Prepare(e).Ready?
    ensures forall k :: 0 <= k < |Statements(Prepare(e).plan)| ==> '\n' !in Statements(Prepare(e).plan)[k]
    ensures StartSolid(Statements(Prepare(e).plan))
  {
    var p := Prepare(e).plan;
    var names := QualifiedNames(e.imports);
    FoundNameSingleLine(e, e.clipboard);
    assert '\n' !in p.fromObject;
    assert '\n' !in Render(p.targetObject);
    forall k | 0 <= k < |p.targetFields|
      ensures '\n' !in Statements(p)[k]
      ensures |Statements(p)[k]| > 0 && !IsWhitespace(Statements(p)[k][0])
    {
      GeneratedHasNoNewline(p.targetFields, p.fromFields, p.targetObject, p.fromObject, k);
      GeneratedStartsSolid(p.targetFields, p.fromFields, p.targetObject, p.fromObject, k);
    }
  }

  /** One invocation. Every throw before the write command leaves the document and the
      caret as they were; otherwise the statements land directly below the caret line with
      its indentation, in target-field order, and the caret ends on the last of them. */
  method ActionPerformed(e: Editor) returns (out: Outcome)
    requires WellFormed(e)
    ensures out.failure.Some? ==> out.lines == e.lines && out.caret == e.caret
    ensures Prepare(e).Halted? ==> out.failure == Some(Prepare(e).failure) && out.notices == Prepare(e).notices
    ensures Prepare(e).Ready? ==> out.notices == Prepare(e).notices
    ensures Prepare(e).Ready? ==>
      (out.failure.Some? <==> |Prepare(e).plan.targetFields| > 0 && e.caret + 1 == |e.lines|)
    ensures Prepare(e).Ready? && out.failure.Some? ==> out.failure.value == OffsetOutOfRange
    ensures out.failure.None? ==> Prepare(e).Ready?
    ensures Prepare(e).Ready? && Prepare(e).plan.targetFields == [] ==>
      out.failure.None? && out.lines == e.lines && out.caret == e.caret
    ensures out.failure.None? ==>
      && out.lines == Spliced(e.lines, e.caret, Indented(Indentation(e.lines[e.caret]), Statements(Prepare(e).plan)))
      && out.caret == e.caret + |Prepare(e).plan.targetFields|
  {
    match Prepare(e)
    case Halted(notices, failure) =>
      out := Outcome(notices, e.lines, e.caret, Some(failure));
    case Ready(notices, plan) =>
      PlanStatementsWellShaped(e);
      var statements := Statements(plan);
      var ok, lines, caret := InsertStatements(e.lines, e.caret, statements);
      out := Outcome(notices, lines, caret, if ok then None else Some(OffsetOutOfRange));
      if plan.targetFields == [] {
        NoFieldsNoChange(e);
      }
  }

  /** Warnings do not stop the action: with an empty clipboard matching a null import
      and an empty selection, three warnings are shown and the run still reaches the write
      command whenever the class registered under `""` resolves. */
  lemma WarningsDoNotHalt(e: Editor)
    requires e.caret < |e.lines|
    requires e.imports == [None] && e.clipboard == "" && e.selection == Some("") && "" in e.classes
    ensures Prepare(e).Ready?
    ensures Prepare(e).notices == [ClipboardEmptyWarning, BadSelectionWarning, BadSelectionWarning]
  {
    EmptyNameFindsNullImport();
  }

  /** In practice no warning goes unpunished: when no class is registered under `""` and
      no qualified name has an empty segment, any notice means the run throws before the
      write command. */
  lemma WarningsHaltWithoutEmptyClass(e: Editor)
    requires e.caret < |e.lines|
    requires "" !in e.classes && NoEmptySegments(e.imports)
    ensures Prepare(e).notices != [] ==> Prepare(e).Halted?
  {
    if Prepare(e).Ready? {
      var names := QualifiedNames(e.imports);
      EmptyNameFindsOnlyNull(e.imports);
      assert FindImport(names, e.clipboard).value in e.classes;
      OrdinaryRunHasNoNotices(e);
    }
  }

  /** A plan with no target fields inserts nothing and leaves the document unchanged. */
  lemma NoFieldsNoChange(e: Editor)
    requires e.caret < |e.lines| && Prepare(e).Ready? && Prepare(e).plan.targetFields == []
    ensures Spliced(e.lines, e.caret, Indented(Indentation(e.lines[e.caret]), Statements(Prepare(e).plan))) == e.lines
  {
    assert Statements(Prepare(e).plan) == [];
    assert e.lines[..e.caret + 1] + [] + e.lines[e.caret + 1..] == e.lines;
  }
}
