# pojo-each: field-bridging code generation, modelled in Dafny

The plugin's one action, `CodeGenerationButtonAction.actionPerformed`, writes
getter/setter bridging code. The user copies a class name (the source class) to the
clipboard. They then select another class name (the target class) on a line such as
`UserDto dto = new UserDto();` and trigger the action. The action does five things:

1. It resolves both names against the file's imports. The first qualified name whose
   `.`-separated segments contain the name exactly wins.
2. It derives the source object name from the clipboard text by lower-casing its first
   character when that character is upper case.
3. It derives the target object name from the caret line with the pattern `\b(\w+)\s*=`.
4. For every target field, in target order, it generates `dto.setX(user.getX());` when the
   source class has a field of the same name, and `dto.setX();` otherwise.
5. It inserts each statement on a new line below the caret line, with the caret line's
   indentation, and moves the caret onto the inserted line.

The model has one module per component:

- `Wrappers`: the `Option` type used for Kotlin's nullable values.
- `Chars`: ASCII character classes. These are Kotlin's `isUpperCase` and `isWhitespace`,
  and the regex classes `\w` and `\s`.
- `Imports`: Kotlin's `split`, its inverse `Join`, and the first-match import lookup.
- `Naming`: `Capitalize` and the source-object-name rule.
- `Assignee`: `getObjectName`. The regex is stated literally (`PatternAt`, `LeftmostMatch`)
  and a scanning function is proved against it.
- `Generation`: field matching and statement generation.
- `Whitespace`: `trimStart` and `getIndentation`.
- `Insertion`: the insertion loop, as a method over a sequence of lines with a caret line index.
- `Action`: the whole action. `Prepare` covers everything before the write command,
  including its warnings and throw sites. `ActionPerformed` adds generation and insertion.

The IDE is replaced by a snapshot, the `Editor` datatype. It holds the import statements'
qualified names (each may be null), the clipboard text, the selection (which may be null),
a map from qualified names to field-name lists (this is what `findClass` followed by
`fields` returns), the document as lines, and the caret line.

Behaviour of the code that the model follows, where a reader might expect otherwise:

- The indentation is recomputed from the caret line on every iteration, not captured once.
  `InsertStatements` proves that this is the same as using the anchor line's indentation.
  The reason is that every generated statement starts with a non-whitespace character
  (`PlanStatementsWellShaped`).
- The warnings at lines 45-47, 50-52 and 54-56, and the error notification at 64-66, do not
  stop the action. It stops only where Kotlin throws:
  - `first` with no match (`NoMatchingImport`);
  - `selectedText!!` (`NullSelection`);
  - `!!` on an unresolved class (`NullClass`).
- When no class is registered under `""` and no qualified name has an empty segment, a throw
  follows every notice (`WarningsHaltWithoutEmptyClass`), because an empty name can then only
  come from a null import. `WarningsDoNotHalt` shows a snapshot where the class named `""`
  resolves, so the warnings are shown and the run still reaches the write command.
- All throws happen before the first insertion, so a failing run leaves the document unchanged.
- Inserting below the last line of the document is out of range (`OffsetOutOfRange`). This
  can only happen before the first insertion, and it too leaves the document unchanged.

## Model

| member | source | states |
|---|---|---|
| Imports.Split | src/main/kotlin/com/github/leoliudong/pojoeach/action/CodeGenerationButtonAction.kt:44 | `split(".")` returns at least one piece; no piece contains the separator; joining the pieces with the separator gives back the input |
| Imports.SplitJoin | src/main/kotlin/com/github/leoliudong/pojoeach/action/CodeGenerationButtonAction.kt:44 | splitting undoes joining for any non-empty list of separator-free pieces, so the segments are exactly the dot-free parts of the name, empty ones included |
| Imports.QualifiedNames | src/main/kotlin/com/github/leoliudong/pojoeach/action/CodeGenerationButtonAction.kt:35-39 | one entry per import statement, in order; a null qualified name is stored as `""` |
| Imports.FirstMatchFrom | src/main/kotlin/com/github/leoliudong/pojoeach/action/CodeGenerationButtonAction.kt:44 | the first position from `i` whose item has the name as a whole segment; no earlier item from `i` has it; `None` when no item from `i` has it |
| Imports.FindImport | src/main/kotlin/com/github/leoliudong/pojoeach/action/CodeGenerationButtonAction.kt:53 | `first` fails exactly when no import has the name as a segment; otherwise it returns the earliest import that has it |
| Imports.NullImportMatchesEmptyName | src/main/kotlin/com/github/leoliudong/pojoeach/action/CodeGenerationButtonAction.kt:37-44 | an import with a null qualified name makes the lookup of an empty clipboard succeed |
| Imports.FoundNameCharsInImport | src/main/kotlin/com/github/leoliudong/pojoeach/action/CodeGenerationButtonAction.kt:44 | a name found as a segment holds no character that the found qualified name lacks |
| Imports.EmptyNameFindsOnlyNull | src/main/kotlin/com/github/leoliudong/pojoeach/action/CodeGenerationButtonAction.kt:37-44 | when no non-null qualified name has an empty segment, a successful lookup of the empty name returns the empty string of a null import |
| Naming.SourceObjectName | src/main/kotlin/com/github/leoliudong/pojoeach/action/CodeGenerationButtonAction.kt:79 | the length and every character after the first are kept; the first character is never upper case afterwards; an upper-case first character becomes its lower-case letter; anything else, including the empty string, is unchanged |
| Naming.SourceObjectNameIdempotent | src/main/kotlin/com/github/leoliudong/pojoeach/action/CodeGenerationButtonAction.kt:79 | applying the rule twice equals applying it once |
| Naming.Capitalize | src/main/kotlin/com/github/leoliudong/pojoeach/action/CodeGenerationButtonAction.kt:85 | the length and every character after the first are kept; a lower-case first letter becomes its upper-case letter; otherwise the name is unchanged |
| Naming.CapitalizeIdempotent | src/main/kotlin/com/github/leoliudong/pojoeach/action/CodeGenerationButtonAction.kt:85 | capitalizing twice equals capitalizing once |
| Naming.CapitalizeUndoesSourceObjectName | src/main/kotlin/com/github/leoliudong/pojoeach/action/CodeGenerationButtonAction.kt:79-85 | capitalizing the derived variable name gives back the class name if and only if the class name does not start with a lower-case letter |
| Assignee.PatternIsMaximal | src/main/kotlin/com/github/leoliudong/pojoeach/action/CodeGenerationButtonAction.kt:167 | every match of `\b(\w+)\s*=` at a position captures the whole word run there and ends at the first non-space after it, so the group is determined by the start |
| Assignee.AssignsAtIffMatches | src/main/kotlin/com/github/leoliudong/pojoeach/action/CodeGenerationButtonAction.kt:167-169 | the executable test at a position holds if and only if the pattern matches there |
| Assignee.FindFrom | src/main/kotlin/com/github/leoliudong/pojoeach/action/CodeGenerationButtonAction.kt:169 | returns the least match start at or after `i`, or `None` exactly when there is none |
| Assignee.ObjectName | src/main/kotlin/com/github/leoliudong/pojoeach/action/CodeGenerationButtonAction.kt:165-172 | `null` if and only if the pattern matches nowhere; otherwise the group captured by the leftmost match, a non-empty run of word characters |
| Assignee.ComparisonYieldsName | src/main/kotlin/com/github/leoliudong/pojoeach/action/CodeGenerationButtonAction.kt:167-171 | a comparison `x == y` also yields a name, since the pattern does not exclude `==` |
| Assignee.IndentedAssignmentName | src/main/kotlin/com/github/leoliudong/pojoeach/action/CodeGenerationButtonAction.kt:165-172 | on `  x = y;` the name is `x` |
| Generation.MatchFields | src/main/kotlin/com/github/leoliudong/pojoeach/action/CodeGenerationButtonAction.kt:83-86 | one result per target field, in target order, duplicates kept; a result is marked as having a source exactly when some source field is equal to it |
| Generation.Render | src/main/kotlin/com/github/leoliudong/pojoeach/action/CodeGenerationButtonAction.kt:80-89 | a missing target object name is rendered as `null`, a present one as itself |
| Generation.Statement | src/main/kotlin/com/github/leoliudong/pojoeach/action/CodeGenerationButtonAction.kt:84-90 | the copying statement for a field is longer than the placeholder call `obj.setField();`, and exactly when the source has the field |
| Generation.StatementShape | src/main/kotlin/com/github/leoliudong/pojoeach/action/CodeGenerationButtonAction.kt:87-89 | every statement starts with the setter call `obj.setField(` on the object and ends with `);` |
| Generation.Generate | src/main/kotlin/com/github/leoliudong/pojoeach/action/CodeGenerationButtonAction.kt:83-91 | exactly one statement per target field, in order; the statement copies the getter when the field is among the source fields and is the empty setter call otherwise; no line break is added |
| Generation.GenerateAppend | src/main/kotlin/com/github/leoliudong/pojoeach/action/CodeGenerationButtonAction.kt:83-92 | generating for a concatenation of target lists concatenates the outputs, so output order follows target order |
| Generation.GenerateDependsOnlyOnMembership | src/main/kotlin/com/github/leoliudong/pojoeach/action/CodeGenerationButtonAction.kt:86 | two source lists that agree on which target fields they contain give the same statements, so source-only fields and source order have no effect |
| Generation.StatementRevealsMatch | src/main/kotlin/com/github/leoliudong/pojoeach/action/CodeGenerationButtonAction.kt:86-90 | the copying and the placeholder statement for a field always differ |
| Generation.GeneratedStartsSolid | src/main/kotlin/com/github/leoliudong/pojoeach/action/CodeGenerationButtonAction.kt:87-89 | a statement is non-empty and starts with non-whitespace when the object name does not start with whitespace |
| Generation.GeneratedHasNoNewline | src/main/kotlin/com/github/leoliudong/pojoeach/action/CodeGenerationButtonAction.kt:87-89 | a statement is a single line when the field name and both object names are |
| Generation.GenerateExample | src/main/kotlin/com/github/leoliudong/pojoeach/action/CodeGenerationButtonAction.kt:83-91 | target fields `id, name, age`, source fields `name, age`, objects `dto` and `user` give `dto.setId();`, `dto.setName(user.getName());`, `dto.setAge(user.getAge());` |
| Generation.GenerateNullObjectExample | src/main/kotlin/com/github/leoliudong/pojoeach/action/CodeGenerationButtonAction.kt:80-89 | a missing target object name is rendered as `null` |
| Whitespace.TrimStart | src/main/kotlin/com/github/leoliudong/pojoeach/action/CodeGenerationButtonAction.kt:133 | the result is a suffix of the line; the removed prefix is all whitespace; the result does not start with whitespace |
| Whitespace.Indentation | src/main/kotlin/com/github/leoliudong/pojoeach/action/CodeGenerationButtonAction.kt:131-142 | the result is a prefix of the line, consists only of whitespace, and is followed by the end of the line or a non-whitespace character |
| Whitespace.IndentationUnique | src/main/kotlin/com/github/leoliudong/pojoeach/action/CodeGenerationButtonAction.kt:131-142 | any whitespace prefix followed by the end of the line or by non-whitespace is the indentation, so the indentation is the longest whitespace prefix |
| Whitespace.IndentationIdempotent | src/main/kotlin/com/github/leoliudong/pojoeach/action/CodeGenerationButtonAction.kt:131-142 | the indentation of the indentation is itself |
| Whitespace.IndentationOfSolidLine | src/main/kotlin/com/github/leoliudong/pojoeach/action/CodeGenerationButtonAction.kt:137-141 | a line that starts with non-whitespace has indentation `""` |
| Whitespace.IndentationOfIndented | src/main/kotlin/com/github/leoliudong/pojoeach/action/CodeGenerationButtonAction.kt:97-101 | whitespace followed by text that starts with non-whitespace has exactly that whitespace as its indentation |
| Insertion.Spliced | src/main/kotlin/com/github/leoliudong/pojoeach/action/CodeGenerationButtonAction.kt:99-101 | the block lands directly below the anchor line; the lines up to the anchor and the lines after it are unchanged and keep their order |
| Insertion.InsertStatements | src/main/kotlin/com/github/leoliudong/pojoeach/action/CodeGenerationButtonAction.kt:92-106 | inserting n statements grows the document by n lines and leaves every other line in place; each inserted line is whitespace followed by its statement; the caret ends n lines below the anchor; when the statements start with non-whitespace, line `anchor+1+k` is the anchor's indentation followed by statement k; it fails only when the anchor is the last line and n > 0, and it then leaves the document and caret unchanged |
| Action.Prepare | src/main/kotlin/com/github/leoliudong/pojoeach/action/CodeGenerationButtonAction.kt:32-80 | the run reaches the write command if and only if both lookups succeed, a selection exists and both classes resolve; each throw site gives its own failure; the clipboard warning fires exactly when the clipboard matched an empty name; a missing or empty selection is warned about; the plan carries both field lists and both derived object names |
| Action.SelectionWarnings | src/main/kotlin/com/github/leoliudong/pojoeach/action/CodeGenerationButtonAction.kt:49-56 | the selection warning fires if and only if the clipboard lookup succeeded and the selection is missing or empty; it fires at most twice, and twice exactly when the empty selection also found an empty import name |
| Action.ResolvedNotices | src/main/kotlin/com/github/leoliudong/pojoeach/action/CodeGenerationButtonAction.kt:44-66 | once both lookups succeed, the notices are the clipboard warning, the two selection warnings and the class error, each present exactly under its own condition, in that order |
| Action.OrdinaryRunHasNoNotices | src/main/kotlin/com/github/leoliudong/pojoeach/action/CodeGenerationButtonAction.kt:44-66 | a run that reaches the write command with a non-empty selection and a non-empty clipboard match shows no notice at all |
| Action.FoundNameSingleLine | src/main/kotlin/com/github/leoliudong/pojoeach/action/CodeGenerationButtonAction.kt:44 | a clipboard or selection text that the lookup found contains no line break |
| Action.FindClass | src/main/kotlin/com/github/leoliudong/pojoeach/action/CodeGenerationButtonAction.kt:58-74 | a class resolves exactly when its qualified name is registered, and then yields that name's field list |
| Action.PlanStatementsWellShaped | src/main/kotlin/com/github/leoliudong/pojoeach/action/CodeGenerationButtonAction.kt:79-91 | the statements the action generates are single lines that start with non-whitespace |
| Action.ActionPerformed | src/main/kotlin/com/github/leoliudong/pojoeach/action/CodeGenerationButtonAction.kt:24-107 | a failing run leaves the document and caret unchanged; it fails where `Prepare` halts, or with an out-of-range insertion exactly when there are statements and the caret is on the last line; a plan without target fields succeeds and changes nothing; otherwise the statements sit directly below the caret line with its indentation, in target order, and the caret is on the last one |
| Action.WarningsDoNotHalt | src/main/kotlin/com/github/leoliudong/pojoeach/action/CodeGenerationButtonAction.kt:44-80 | for any snapshot whose only import is null, whose clipboard is empty, whose selection is empty and where the class named `""` resolves, three warnings are shown and the run still reaches the write command |
| Action.WarningsHaltWithoutEmptyClass | src/main/kotlin/com/github/leoliudong/pojoeach/action/CodeGenerationButtonAction.kt:44-74 | when no class is registered under `""` and no qualified name has an empty segment, any notice means the run throws before the write command |
| Action.NoFieldsNoChange | src/main/kotlin/com/github/leoliudong/pojoeach/action/CodeGenerationButtonAction.kt:83-106 | when the plan has no target fields, splicing its statements below the caret line gives back the document unchanged |

## Left out

- Reading the clipboard (lines 40-42 and 116-123) is I/O. The clipboard text is an input
  string. The error notification shown when reading fails is not modelled.
- The early returns for a missing project, editor or file (lines 26-32) do nothing, so they
  are not modelled.
- PSI traversal and class resolution (lines 33, 58-74) are IDE services. The import
  statements' qualified names and the map from qualified names to field names are inputs.
- Document mechanics (offsets, `getLineText` at lines 150-158, `commitDocument`, the write
  command) are IDE services. The document is modelled as a sequence of lines and the caret
  as a line index. The text of notifications is replaced by the `Notice` constructors.
- `Notification.kt` only shows IDE notifications; it contains no logic.
- `capitalize` comes from a library whose source is not part of this model. It is modelled
  as upper-casing a lower-case ASCII first letter.
- Character classes are ASCII-only: `isUpperCase`, `lowercaseChar`, `isWhitespace`, `\w`,
  `\s` and `\b`. Non-ASCII characters count as neither letters, word characters nor whitespace.
- Text containing line breaks is not modelled, because the model works one line at a time.
  `WellFormed` requires that no line, qualified name or field name contains `\n`.
  `InsertStatements` requires single-line statements. The action proves that its statements
  are single lines.
- The statements are produced as closures and evaluated inside the loop. Their values do not
  depend on when they are evaluated, so they are modelled as strings.
- Insertion.InsertStatements: the exact content of each inserted line is stated only when
  every statement starts with non-whitespace. Otherwise the contract says only that each
  inserted line is some whitespace followed by the statement. The action's statements always
  meet the condition.
