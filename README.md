# Sweeper style tasks, modelled in Dafny

Sweeper is a Visual Studio add-in that tidies C# files. It runs a fixed list of style
tasks on every C# file of a solution, or on the active document alone. Each task is
modelled here over plain values:

- *Move Usings* relocates the top-level using directives into every namespace.
- *Remove and Sort Usings* issues the IDE's command. It switches itself off for the rest
  of a pass when the build has errors or the user skips a slow run.
- *Sort Elements Within a Class* checks member order and sorts out-of-order classes by
  (placement, access rank, name, weight).
- *Add Missing Access Modifiers* comes in two revisions.
- *Run GhostDoc* uses a pre-order walk to choose the elements it documents.
- *Add Copyright* writes a five-line header made from AssemblyInfo.cs.
- The add-in object (`Connect`) holds the task lists and the commands, and runs the pass
  over project items.

Host objects become values:

- The IDE's code model is a tree of `CodeElement`s.
- A document is a string, or a sequence of lines.
- Host reads the model cannot see are parameters: a property an element may lack, an
  exception a host call raises, the user's answer to a prompt, how long a command took.
- Host writes are returned as traces in call order: Access writes, documented elements,
  output lines, task calls, windows opened.

One module per source file, plus `CodeModel` for the host types they share:

- `CodeModel`: code elements, access levels, element kinds, paths into the element tree, string search.
- `StyleTaskBase`: the shared lookup tables, the placement order, the enable gate.
- `SortElementsWithinClass`: access ranks, placements, the sortedness check, the comparator, the sort, the task.
- `AddCopyright`: the insert decision, the attribute-value extraction, the header.
- `AddAccessModifiers`: both revisions of the tree walk and the Access writes.
- `MoveUsings`: insertion points, the cut and paste of directives, the revert.
- `RemoveAndSortUsings`: the per-pass switch-off flag as a class.
- `RunGhostDoc`: the documentation walk.
- `Connect`: the add-in class, its task loops, QueryStatus, Exec.

Code that updates state step by step is written as methods with loops or as classes. Each
is proved equal to a specification function, and the properties are lemmas about those
functions:

- `RemoveAndSortUsings.RemoveAndSortUsingsTask`, `SortElementsWithinClass.SortElementsWithinClassTask`,
  `RunGhostDoc.RunGhostDocTask`, `Connect.AddIn`.
- The loops of `EvaluateElementsWithinClassSorted`, `GetWeight`, `CutMembers`,
  `AddCopyrightToFile`, `GetInsertionPoints`, `CutUsings` and others.

## Model

| member | source | states |
|---|---|---|
| `CodeModel.IndexOf` | Sweeper/Tasks/MoveUsings.cs:88 | a match-case search gives the first offset where the pattern occurs, and None exactly when it occurs nowhere |
| `CodeModel.SetAccessToCurrentIsIdentity` | Sweeper/Tasks/AddAccessModifiers.cs:113-115 | setting an element's Access to the level it already has leaves the whole code model unchanged |
| `StyleTaskBase.AccessKeywordsInjective` | SweeperHg/trunk/Sweeper/Tasks/StyleTaskBase.cs:16-22 | the keyword table has exactly the four levels public, protected, private and project, with distinct keywords; project is "internal" |
| `StyleTaskBase.BlockTablesAgree` | SweeperHg/trunk/Sweeper/Tasks/StyleTaskBase.cs:27-54 | the placement table and the code-model type table have the same nine keys; neither has namespace or import |
| `StyleTaskBase.BlockTypesInjective` | SweeperHg/trunk/Sweeper/Tasks/StyleTaskBase.cs:27-38 | no two kinds share a placement, and the table never yields CONSTRUCTOR or FINALIZER |
| `StyleTaskBase.PlacementOrder` | SweeperHg/trunk/Sweeper/Tasks/StyleTaskBase.cs:60-116 | the placements form the strict chain FIELD < CONSTRUCTOR < … < CLASS; equal ordinals mean equal placements |
| `StyleTaskBase.PerformStyleTask` | SweeperHg/trunk/Sweeper/Tasks/StyleTaskBase.cs:138-144 | a task's DoWork runs exactly when the task is enabled, and a disabled task changes nothing; Connect's task step (`Connect.TaskStep`, and so `Connect.AddIn.RunTask`) runs every task's work through it, and `Connect.EnabledTasksRunInOrder` rests on that |
| `SortElementsWithinClass.AccessOrdinalInjective` | SweeperHg/trunk/Sweeper/Tasks/SortElementsWithinClass.cs:40-121 | the sixteen access ranks have distinct ordinals |
| `SortElementsWithinClass.EvaluateAccess` | SweeperHg/trunk/Sweeper/Tasks/SortElementsWithinClass.cs:549-563 | rank ordinal = 4·level + 3 − 2·[constant] − [static], for levels public 0, internal 1, protected 2, private 3; a level outside the lookup table has no rank (the requires) |
| `SortElementsWithinClass.EvaluateAccessInjective` | SweeperHg/trunk/Sweeper/Tasks/SortElementsWithinClass.cs:549-563 | two members get the same rank exactly when level, constant flag and static flag all agree |
| `SortElementsWithinClass.GetType` | SweeperHg/trunk/Sweeper/Tasks/SortElementsWithinClass.cs:416-433 | constructors get CONSTRUCTOR, destructors FINALIZER, every other member its placement-table entry |
| `SortElementsWithinClass.EvaluateBlock` | SweeperHg/trunk/Sweeper/Tasks/SortElementsWithinClass.cs:283-295 | a block exists exactly when the kind has a placement and the access (private when unreadable) has a rank; its weight is 0, and its placement, rank, name and body come from the element |
| `SortElementsWithinClass.GetWeight` | SweeperHg/trunk/Sweeper/Tasks/SortElementsWithinClass.cs:302-319 | the weight is the summed text lengths of a function's parameters and 0 for other kinds; it is positive for a function whose first parameter has a name |
| `SortElementsWithinClass.EvaluateElementsWithinClassSorted` | SweeperHg/trunk/Sweeper/Tasks/SortElementsWithinClass.cs:221-274 | the loop answers the scan: false exactly when two consecutive recognised blocks are out of order by (placement, then rank); true when a block fails |
| `SortElementsWithinClass.CheckIsInOrder` | SweeperHg/trunk/Sweeper/Tasks/SortElementsWithinClass.cs:228-264 | the scan's answer equals "every adjacent pair of scanned blocks is in order"; unrecognised kinds are skipped, names are ignored, and a failing block ends the scan |
| `SortElementsWithinClass.NameCompareZero` | SweeperHg/trunk/Sweeper/Tasks/SortElementsWithinClass.cs:499-502 | the name comparison is 0 exactly for equal names |
| `SortElementsWithinClass.NameCompareAntisymmetric` | SweeperHg/trunk/Sweeper/Tasks/SortElementsWithinClass.cs:501 | swapping the two names negates the name comparison |
| `SortElementsWithinClass.NameCompareTransitive` | SweeperHg/trunk/Sweeper/Tasks/SortElementsWithinClass.cs:501 | the name order is transitive |
| `SortElementsWithinClass.CompareZeroIff` | SweeperHg/trunk/Sweeper/Tasks/SortElementsWithinClass.cs:488-509 | the comparator answers 0 exactly when placement, rank, name and weight are all equal |
| `SortElementsWithinClass.CompareAntisymmetric` | SweeperHg/trunk/Sweeper/Tasks/SortElementsWithinClass.cs:488-509 | swapping the blocks negates the comparator |
| `SortElementsWithinClass.CompareTransitive` | SweeperHg/trunk/Sweeper/Tasks/SortElementsWithinClass.cs:488-509 | the comparator's order is transitive |
| `SortElementsWithinClass.CompareAgreesWithCheck` | SweeperHg/trunk/Sweeper/Tasks/SortElementsWithinClass.cs:244-258 | a pair that the comparator keeps in order is never a pair the sortedness check reports |
| `SortElementsWithinClass.Insert` | SweeperHg/trunk/Sweeper/Tasks/SortElementsWithinClass.cs:488 | inserting into a sorted list keeps it sorted and adds exactly the one member |
| `SortElementsWithinClass.SortMembers` | SweeperHg/trunk/Sweeper/Tasks/SortElementsWithinClass.cs:488-509 | List.Sort with the comparator: the result is sorted and a permutation of its input |
| `SortElementsWithinClass.CollectMembers` | SweeperHg/trunk/Sweeper/Tasks/SortElementsWithinClass.cs:471-486 | every child becomes a member in child order, carrying the block its element evaluates to; None exactly when some child's block fails |
| `SortElementsWithinClass.CutMembers` | SweeperHg/trunk/Sweeper/Tasks/SortElementsWithinClass.cs:469-486 | the cutting loop collects what CollectMembers describes, and stops at the first failing child |
| `SortElementsWithinClass.EmitBodies` | SweeperHg/trunk/Sweeper/Tasks/SortElementsWithinClass.cs:514-517 | the pasted text is every body in sorted order, each followed by "\r\n\r\n" |
| `SortElementsWithinClass.SortFunctionsWithinClass` | SweeperHg/trunk/Sweeper/Tasks/SortElementsWithinClass.cs:457-540 | the method's outcome equals SortClass: no "{" leaves the class alone; a failing member restores the saved text; otherwise the sorted members, the pasted text, and the nested types sorted in turn |
| `SortElementsWithinClass.SortNestedTypes` | SweeperHg/trunk/Sweeper/Tasks/SortElementsWithinClass.cs:522-529 | every class, interface or struct among the re-pasted members, in their new order, is sorted in turn |
| `SortElementsWithinClass.SortedClassPassesCheck` | SweeperHg/trunk/Sweeper/Tasks/SortElementsWithinClass.cs:488-517 | after a rewrite, the members are a permutation of those collected, and the class holding them in their new order passes EvaluateElementsWithinClassSorted |
| `SortElementsWithinClass.UnrecognisedMemberReverts` | SweeperHg/trunk/Sweeper/Tasks/SortElementsWithinClass.cs:532-539 | a class with a member whose kind has no placement is always restored to its saved text, never rewritten |
| `SortElementsWithinClass.CheckForPreprocessorDirectives` | SweeperHg/trunk/Sweeper/Tasks/SortElementsWithinClass.cs:198-214 | true exactly when some line, untrimmed, begins with '#' |
| `SortElementsWithinClass.SortNamespaceTypes` | SweeperHg/trunk/Sweeper/Tasks/SortElementsWithinClass.cs:177-187 | for one namespace, each class, interface or struct that fails the check is sorted, in child order; nothing else is |
| `SortElementsWithinClass.SortPassOnlyUnsorted` | SweeperHg/trunk/Sweeper/Tasks/SortElementsWithinClass.cs:172-189 | every sort in a pass is of a type directly inside a top-level namespace, that type fails the check, and its outcome is SortClass of it |
| `SortElementsWithinClass.SortElementsWithinClassTask.constructor` | SweeperHg/trunk/Sweeper/Tasks/SortElementsWithinClass.cs:24-35 | a new task starts with its per-pass flag clear |
| `SortElementsWithinClass.SortElementsWithinClassTask.Reset` | SweeperHg/trunk/Sweeper/Tasks/SortElementsWithinClass.cs:147-150 | Reset clears the per-pass flag |
| `SortElementsWithinClass.SortElementsWithinClassTask.DoWork` | SweeperHg/trunk/Sweeper/Tasks/SortElementsWithinClass.cs:157-191 | on a .cs item with a clear flag, unless the user declines because of directives, the pass sorts exactly SortPass of the file; otherwise it sorts nothing |
| `AddCopyright.FirstMatchingLineIsFirst` | SweeperHg/trunk/Sweeper/Tasks/AddCopyright.cs:99 | the attribute search returns the first line that matches `[assembly: KEY("…")]` with letter case ignored, and nothing when no line matches |
| `AddCopyright.TrimStart` | SweeperHg/trunk/Sweeper/Tasks/AddCopyright.cs:103 | a suffix of the line, with only white space cut off and no white space at its start |
| `AddCopyright.TrimEnd` | SweeperHg/trunk/Sweeper/Tasks/AddCopyright.cs:103 | a prefix of the line, with only white space cut off and no white space at its end |
| `AddCopyright.TrimShape` | SweeperHg/trunk/Sweeper/Tasks/AddCopyright.cs:103 | the trimmed line is a slice of the line with only white space on either side of it |
| `AddCopyright.FirstQuote` | SweeperHg/trunk/Sweeper/Tasks/AddCopyright.cs:106 | the index of the first '"', with no '"' before it, or the length when there is none |
| `AddCopyright.EndOfLastQuote` | SweeperHg/trunk/Sweeper/Tasks/AddCopyright.cs:106 | the index just past the last '"', with no '"' after it, or 0 when there is none |
| `AddCopyright.QuotedSpan` | SweeperHg/trunk/Sweeper/Tasks/AddCopyright.cs:106 | the greedy `".*"` match is empty, or starts and ends with '"' |
| `AddCopyright.QuotedSpanEmptyIff` | SweeperHg/trunk/Sweeper/Tasks/AddCopyright.cs:106 | the match is empty exactly when the line holds fewer than two quotes |
| `AddCopyright.TrimKeepsQuotedSpan` | SweeperHg/trunk/Sweeper/Tasks/AddCopyright.cs:103-106 | trimming the line first cannot change its quoted span |
| `AddCopyright.RetrieveAssemblyInfoValue` | SweeperHg/trunk/Sweeper/Tasks/AddCopyright.cs:91-107 | "" when no line matches the attribute (letter case ignored); otherwise the quoted span of the first matching line, quotes included |
| `AddCopyright.MatchIgnoresCase` | SweeperHg/trunk/Sweeper/Tasks/AddCopyright.cs:99 | the search is made without MatchCase: a line matches exactly when its case-folded text matches the case-folded key |
| `AddCopyright.FoldedPattern` | SweeperHg/trunk/Sweeper/Tasks/AddCopyright.cs:99 | folding the whole pattern folds only its key, since the fixed text `[assembly: ` and `("` holds no capital letters |
| `AddCopyright.AttributeValueIsQuoted` | SweeperHg/trunk/Sweeper/Tasks/AddCopyright.cs:99-106 | when AssemblyInfo.cs has the attribute, the value found starts and ends with '"', so the header's company is quoted |
| `AddCopyright.RuleHasNoBreakOrTag` | SweeperHg/trunk/Sweeper/Tasks/AddCopyright.cs:121 | the dashed rule holds no line break and no '<', and is three characters longer than its width |
| `AddCopyright.AddCopyrightToFile` | SweeperHg/trunk/Sweeper/Tasks/AddCopyright.cs:116-127 | the new document is the five header lines, each ending in "\r\n", followed by the old document unchanged |
| `AddCopyright.HeaderIsFiveLines` | SweeperHg/trunk/Sweeper/Tasks/AddCopyright.cs:120-125 | when the three values hold no line break, the header has five lines and exactly five line breaks |
| `AddCopyright.DoWork` | SweeperHg/trunk/Sweeper/Tasks/AddCopyright.cs:45-83 | non-.cs items, documents with "<copyright" ending on line 1 or 2, and solutions without AssemblyInfo.cs are left unchanged; otherwise the header from the file name and the two attribute values goes in front of the document |
| `AddCopyright.HeaderIsDetected` | SweeperHg/trunk/Sweeper/Tasks/AddCopyright.cs:55-56 | a document that starts with the header has its tag on line 2, so it is not given another |
| `AddCopyright.HeaderAfterTag` | SweeperHg/trunk/Sweeper/Tasks/AddCopyright.cs:121-122 | the header is the rule, a line break and "// " before the tag, then the rest |
| `AddCopyright.TagFoundAt` | SweeperHg/trunk/Sweeper/Tasks/AddCopyright.cs:55 | the search finds the tag right after a prefix that holds no '<' |
| `AddCopyright.DoWorkIdempotent` | SweeperHg/trunk/Sweeper/Tasks/AddCopyright.cs:45-83 | running the task twice gives the same document as running it once |
| `AddAccessModifiers.TrunkTablesAgree` | SweeperHg/trunk/Sweeper/Tasks/AddAccessModifiers.cs:18-39 | the trunk revision's keyword table equals the shared one; its type table is the shared one without the interface entry |
| `AddAccessModifiers.AddMissingAccessModifiers` | Sweeper/Tasks/AddAccessModifiers.cs:63-122 | the indexed child loop, with its recursion and its exceptions, makes exactly the writes of WalkElement, in order |
| `AddAccessModifiers.VisitChild` | Sweeper/Tasks/AddAccessModifiers.cs:74-118 | one accepted child, as Visit says: the Access read through the type table, nested classes and structs first, exempt functions skipped, the write back |
| `AddAccessModifiers.DoWork` | Sweeper/Tasks/AddAccessModifiers.cs:44-57 | every top-level namespace, and nothing else, is handed to the walk, in order, until one throws |
| `AddAccessModifiers.WritesOnlyTargets` | Sweeper/Tasks/AddAccessModifiers.cs:63-122 | every write is to a target: reached through a namespace and then classes or structs, not an import or interface, not a destructor or static constructor, its declaration lacking the keyword; the value written is its own access |
| `AddAccessModifiers.WritesEveryTarget` | SweeperHg/trunk/Sweeper/Tasks/AddAccessModifiers.cs:91-148 | when no exception ends the walk, every target is written, with its own access level |
| `AddAccessModifiers.WritesKeepAccessLevels` | Sweeper/Tasks/AddAccessModifiers.cs:111-116 | applying all the writes leaves the code model as it was: no access level changes |
| `AddAccessModifiers.InterfaceMembersNeverWritten` | SweeperHg/trunk/Sweeper/Tasks/AddAccessModifiers.cs:93-107 | every element enclosing a written element is a namespace, a class or a struct, so interface members are never written |
| `AddAccessModifiers.SweeperAsWrittenIsNoOp` | Sweeper/Tasks/AddAccessModifiers.cs:65 | as written, the Sweeper revision makes no write and never throws, on any file |
| `AddAccessModifiers.OneClassFileIsWritten` | Sweeper/Tasks/AddAccessModifiers.cs:65-71 | on a namespace holding one internal class declared "class Foo", the written Sweeper revision writes nothing; the corrected and trunk revisions write "internal" to it |
| `AddAccessModifiers.PartialDeclarationsDiffer` | SweeperHg/trunk/Sweeper/Tasks/AddAccessModifiers.cs:137 | a declaration starting with "partial" is written by the trunk revision and left alone by the Sweeper revision |
| `AddAccessModifiers.RevisionsAgreeWithoutPartial` | Sweeper/Tasks/AddAccessModifiers.cs:111 | for one element whose declaration does not start with "partial": it needs its keyword written in the trunk revision exactly when it does in the corrected Sweeper revision |
| `AddAccessModifiers.RevisionsWriteTheSame` | Sweeper/Tasks/AddAccessModifiers.cs:48-116 | on a file with no "partial" declaration at any depth, the whole walk of the corrected Sweeper revision and that of the trunk revision make the same writes in the same order and fail alike; the "partial" exemption at line 111 is the only difference between them |
| `MoveUsings.BracePoint` | Sweeper/Tasks/MoveUsings.cs:85-91 | the offset just past the namespace's first "{", or None when its text has no "{" |
| `MoveUsings.GetInsertionPoints` | Sweeper/Tasks/MoveUsings.cs:77-96 | the loop produces InsertionPoints of the whole file |
| `MoveUsings.InsertionPointsAreBraces` | Sweeper/Tasks/MoveUsings.cs:77-96 | each point is a top-level namespace with its brace offset, in strictly increasing order, and every such namespace has a point |
| `MoveUsings.CutUsings` | Sweeper/Tasks/MoveUsings.cs:105-118 | the cutting loop, which looks at the same index again after a removal, collects the directives in order and keeps the other elements in order |
| `MoveUsings.CutSplitsFile` | Sweeper/Tasks/MoveUsings.cs:106-118 | each top-level element is either collected or kept; no kept element is a directive |
| `MoveUsings.UsingsAreTheDirectives` | Sweeper/Tasks/MoveUsings.cs:109-113 | the collected texts are exactly the texts of the top-level directives |
| `MoveUsings.NothingToCut` | Sweeper/Tasks/MoveUsings.cs:106-118 | a file without top-level directives keeps all its elements, and nothing is collected |
| `MoveUsings.PasteBlock` | Sweeper/Tasks/MoveUsings.cs:123-137 | the text pasted is "\r\n", then each directive followed by "\r\n", then "\r\n"; nothing when there are no directives |
| `MoveUsings.MoveUsingStatementsInPlace` | Sweeper/Tasks/MoveUsings.cs:103-139 | the cut and paste loops produce MoveUsingStatements of the file |
| `MoveUsings.MovedFileHasNoTopLevelUsings` | Sweeper/Tasks/MoveUsings.cs:103-139 | after the move no top-level directive is left, so a second run collects nothing; other elements keep their places and only namespace texts change |
| `MoveUsings.EveryNamespaceGetsAllUsings` | Sweeper/Tasks/MoveUsings.cs:120-138 | every namespace with a "{" gets the whole list, in collected order, one directive per line, after its unchanged text up to the brace |
| `MoveUsings.NoUsingsNoPaste` | Sweeper/Tasks/MoveUsings.cs:123-137 | with no directives, only the white-space deletion after each "{" happens |
| `MoveUsings.UnlinesHasEveryLine` | Sweeper/Tasks/MoveUsings.cs:126-129 | each directive sits on a line of its own in the block, in order |
| `MoveUsings.DoWork` | Sweeper/Tasks/MoveUsings.cs:44-70 | non-C# and designer files are untouched; a missing window throws out of the task; a failed edit restores the saved text; with no insertion point nothing moves; otherwise the text is that of the moved file |
| `MoveUsings.RunMoveUsings` | Sweeper/Tasks/MoveUsings.cs:44-70 | the task's steps give DoWork's result |
| `RemoveAndSortUsings.RemoveAndSortUsingsTask.constructor` | Sweeper/Tasks/RemoveAndSortUsings.cs:21-27 | a new task keeps its detector and starts switched on |
| `RemoveAndSortUsings.RemoveAndSortUsingsTask.Reset` | Sweeper/Tasks/RemoveAndSortUsings.cs:59-62 | Reset clears IsTemporarilyDisabled |
| `RemoveAndSortUsings.RemoveAndSortUsingsTask.DoWork` | Sweeper/Tasks/RemoveAndSortUsings.cs:69-107 | Edit.RemoveAndSort is executed exactly on a .cs item while the flag is clear, no detector reports errors, and SetFocus does not throw; the new flag is DisabledAfter of the old one |
| `RemoveAndSortUsings.FocusFailureSkipsCommand` | Sweeper/Tasks/RemoveAndSortUsings.cs:89-90 | when SetFocus throws, the command is never executed, and the flag changes only if a detector had already reported errors |
| `RemoveAndSortUsings.DisabledUntilReset` | Sweeper/Tasks/RemoveAndSortUsings.cs:71 | once the flag is set, any run of DoWork calls issues no command and leaves the flag set |
| `RemoveAndSortUsings.ResetEndsThePass` | Sweeper/Tasks/RemoveAndSortUsings.cs:59-62 | whatever happened earlier in the pass, the flag is clear after a Reset |
| `RemoveAndSortUsings.DisabledIff` | Sweeper/Tasks/RemoveAndSortUsings.cs:75-99 | an enabled task on a .cs item switches itself off exactly when a detector reports errors, or the command was executed without throwing, took over 1000 ms and the user chose to skip it |
| `RemoveAndSortUsings.NoDetectorIgnoresErrors` | Sweeper/Tasks/RemoveAndSortUsings.cs:75 | without a detector the command is executed on every enabled .cs item whose window takes the focus, and reported errors change nothing |
| `RemoveAndSortUsings.OtherItemsUntouched` | Sweeper/Tasks/RemoveAndSortUsings.cs:71 | a non-.cs item gets no command and leaves the flag as it was |
| `RunGhostDoc.RunGhostDocTask.constructor` | SweeperHg/trunk/Sweeper/Tasks/RunGhostDoc.cs:15-25 | a new task has no window |
| `RunGhostDoc.RunGhostDocTask.DoWork` | SweeperHg/trunk/Sweeper/Tasks/RunGhostDoc.cs:48-65 | the elements documented are DoWorkTrace; the window is kept exactly when a .cs item came with one |
| `RunGhostDoc.RunGhostDocTask.DocumentElements` | SweeperHg/trunk/Sweeper/Tasks/RunGhostDoc.cs:87-197 | the recursive loop documents exactly DocumentedBelow, in order |
| `RunGhostDoc.GuardedByItem` | SweeperHg/trunk/Sweeper/Tasks/RunGhostDoc.cs:50 | nothing is documented unless the item is a .cs file with a window |
| `RunGhostDoc.DocumentsOnlyCandidates` | SweeperHg/trunk/Sweeper/Tasks/RunGhostDoc.cs:91-190 | every element documented is of a documented kind, not internal, reached only through namespaces and walked kinds (never a namespace, never below a variable), and its command did not throw |
| `RunGhostDoc.DocumentsEveryCandidate` | SweeperHg/trunk/Sweeper/Tasks/RunGhostDoc.cs:91-190 | when no Access read or command throws, every such element is documented |
| `RunGhostDoc.VisitAbortsOnlyOnItsOwn` | SweeperHg/trunk/Sweeper/Tasks/RunGhostDoc.cs:89-196 | a loop is ended only by an exception at its own element; an exception below is caught at the lower level |
| `RunGhostDoc.AbortSkipsLaterSiblings` | SweeperHg/trunk/Sweeper/Tasks/RunGhostDoc.cs:89-196 | an exception at the k-th element skips that element's subtree and every later sibling; only earlier siblings are documented |
| `RunGhostDoc.DocumentsInPreOrder` | SweeperHg/trunk/Sweeper/Tasks/RunGhostDoc.cs:91-190 | the commands are issued in pre-order: a parent before its children, and a subtree before its later siblings |
| `RunGhostDoc.BeforeIrreflexive` | SweeperHg/trunk/Sweeper/Tasks/RunGhostDoc.cs:91-190 | no path is before itself, so the ordered trace documents no element twice |
| `Connect.AddIn.constructor` | Sweeper/Connect.cs:50-64 | the three lists are filled in their fixed order, and the RemoveAndSortUsings task gets the error detector and starts switched on |
| `Connect.AddIn.IsCompilerErrorInErrorList` | Sweeper/Connect.cs:511-526 | true exactly when some error item has level High |
| `Connect.AddIn.RunProjectItemStyleTasks` | Sweeper/Connect.cs:430-473 | the host calls and the new flag are those of RunItem: the task loop on a styled item, its window closed when it was not open and is saved, then its children |
| `Connect.AddIn.RunTasks` | Sweeper/Connect.cs:440-458 | the task loop on one item, ended by the first exception, gives TaskLoop's effects and flag |
| `Connect.AddIn.RunTask` | Sweeper/Connect.cs:444-452 | one task, as TaskStep: its "Running"/"Not Running" line, then StyleTaskBase.PerformStyleTask when enabled, which runs the task's DoWork; for the RemoveAndSortUsings task that is its DoWork with the error-list detector |
| `Connect.AddIn.RunEachItem` | Sweeper/Connect.cs:466-472 | a foreach over project items, each handed to RunProjectItemStyleTasks |
| `Connect.AddIn.RunSolutionStyleTasks` | Sweeper/Connect.cs:479-505 | the active window is activated, the header line is written, then the solution tasks run in order until one throws |
| `Connect.AddIn.ResetTasks` | Sweeper/Connect.cs:417-423 | Reset is called on every task in order; only the RemoveAndSortUsings flag changes, and it is cleared exactly when that task is in the list |
| `Connect.AddIn.TaskOptions` | Sweeper/Connect.cs:384-398 | the option list is the common, post-single and post-solution tasks, in order |
| `Connect.AddIn.Exec` | Sweeper/Connect.cs:295-410 | the three command handlers, behind the default-option test, give ExecOutcome |
| `Connect.AddIn.ExecSweeperAll` | Sweeper/Connect.cs:301-344 | SweeperAll: the start line, every project's items, the solution tasks, both Resets, the end line, and the active window's item reopened when there is one |
| `Connect.AddIn.RunProjects` | Sweeper/Connect.cs:310-323 | each project's items are run, or the project is reported skipped when it has none |
| `Connect.AddIn.ExecSweeper` | Sweeper/Connect.cs:345-381 | Sweeper on the active document: the common tasks, their Resets, the post-single tasks, their Resets, then the reopen |
| `Connect.AddIn.ExecSweeperOptions` | Sweeper/Connect.cs:382-408 | SweeperOptions: the option window over every task, then the reopen of the active window's item |
| `Connect.EnabledTasksRunInOrder` | Sweeper/Connect.cs:440-458 | on a styled item, PerformStyleTask is called on exactly the enabled tasks, in list order, up to and including the first that throws |
| `Connect.OtherItemsOnlyRecurse` | Sweeper/Connect.cs:432-472 | an item that is not a styled file gets no tasks, and its children are still visited |
| `Connect.EveryStyledItemWorkedOnInPreOrder` | Sweeper/Connect.cs:430-473 | every styled file in the item tree, at any depth, is opened and worked on exactly once, each before its children, whatever the parents are and whatever exceptions tasks throw |
| `Connect.SwitchedOffForTheRestOfThePass` | Sweeper/Connect.cs:310-323 | once the RemoveAndSortUsings task has switched off, no later item of the pass gets Edit.RemoveAndSort, and the flag stays set |
| `Connect.PassesEndSwitchedOn` | Sweeper/Connect.cs:325-327 | after SweeperAll on a solution with projects the flag is clear; with no projects it is untouched |
| `Connect.SolutionLoopRunsNoItemTask` | Sweeper/Connect.cs:486-504 | the solution loop makes no item call, only log lines and solution-task calls |
| `Connect.ResetsAreResets` | Sweeper/Connect.cs:417-423 | one Reset call per task, in list order |
| `Connect.SweeperAllOrder` | Sweeper/Connect.cs:306-328 | with projects, all item work comes before the solution tasks, and the Resets come after both |
| `Connect.NoProjectsNoTasks` | Sweeper/Connect.cs:308-332 | with no projects no item task, no solution task and no Reset runs |
| `Connect.QueryStatusMatchesExec` | Sweeper/Connect.cs:264-286 | in either revision QueryStatus enables a command exactly when Exec, under the default option, takes it up: it handles it or faults on it; the corrected Exec handles every enabled command, while the written one can fault on Sweeper and SweeperOptions; with any other text request the status is untouched |
| `Connect.ExecNeedsDefaultOption` | Sweeper/Connect.cs:299 | for any option but the default one, Exec does nothing and leaves the command unhandled |
| `Connect.AsWrittenReopenFaults` | Sweeper/Connect.cs:377-378 | as written, Sweeper with no active document, or with a document that is not a project item, throws and is left unhandled; so does SweeperOptions when the active window has no item |
| `Connect.CorrectedExecHandles` | Sweeper/Connect.cs:336-340 | with the reopen guarded as SweeperAll guards it, Exec never throws and handles exactly its three commands under the default option |
| `Connect.RevisionsAgreeWithAnItem` | Sweeper/Connect.cs:295-410 | when the item to reopen exists, the guarded and the written Exec behave the same |

## Left out

- Host buffer semantics are not modelled: cursor moves, FindPattern offsets into the live buffer, DeleteWhitespace, LineUp, SmartFormat. Text is a string per element or a sequence of lines.
- Vertical white-space deletion after each "{" is a parameter function (`squeeze`) in MoveUsings.
- The white-space deletion after each cut directive is not modelled. The gaps between top-level elements are not represented at all.
- MoveUsings.MoveUsingStatements: a document is the sequence of its top-level elements. So the contract speaks of element texts, not of the exact characters between elements.
- SortElementsWithinClass.SortFunctionsWithinClass: the outcome records the members, the pasted text and the nested sorts, not the class's new text. The "\r\n" inserts around the brace, the LineUp and the white-space deletion are host buffer operations.
- SortElementsWithinClass.SortMembers: promises a sorted permutation, not the particular order List.Sort gives equal blocks, because List.Sort is not stable.
- SortElementsWithinClass.NameCompare: names are compared by character code. The culture-sensitive string.CompareTo is not modelled.
- Reflection in GetElementProperty and GetElementIsStatic is a map from property paths to booleans, plus an optional Access. The index walk over a property path is not modelled.
- GetCodeBlockText is an element field (`blockText`): the text a member is cut with, including the comments above it, already trimmed.
- AddCopyright.RetrieveAssemblyInfoValue: the attribute pattern is matched line by line, as the opening text and then the closing text. The host's find syntax is read as the .NET one. Letter case is ignored, as the search is made without MatchCase, but only A-Z are folded; case folding of other letters is not modelled.
- AddCopyright.LineAt: lines are counted by '\n'.
- AddCopyright works on the whole document. A missing AssemblyInfo.cs is None, and the task's catch then leaves the document unchanged. Failures of Open or Activate on AssemblyInfo.cs are not modelled.
- RunGhostDoc.RunGhostDocTask.DocumentElements: GhostDoc's own change to the document is not modelled. Only the order in which elements get the command is described. The selection moves of DocumentElement are host effects.
- RunGhostDoc: an unreadable Access and a throwing command are inputs: `access` None, and the `faults` set of paths. A host failure before the walk is the `documentFails` flag.
- Connect: what each task does to a file is abstract (the `Perform` effect). Whether a task throws on an item is an input (`throwing`).
- Connect.TaskStep: the RemoveAndSortUsings task catches its own exceptions. So it is never in `throwing`, and its command's failure is the item's `commandFails`.
- Connect: a null ActiveWindow at Sweeper/Connect.cs:297 is not modelled. Nor are exceptions from get_IsOpen, Open, Activate or Close inside RunProjectItemStyleTasks, which happen outside its try.
- Connect: a null ProjectItems collection is modelled as an empty one.
- Connect: the output pane (SweeperPane) and the View.ErrorList and View.Output commands are not modelled. Each output line is a `Line` effect with the exact text from `Text`.
- Connect.ExecSweeperOptions: the option window's dialog result is ignored, as the source only logs it.
- Connect: OnConnection, OnDisconnection, OnAddInsUpdate, OnStartupComplete and OnBeginShutdown (command and menu registration) are not modelled. They only talk to the IDE.
- IsEnabled is read from the user's settings. It is an input set `enabled` of the tasks whose setting is on.
- The default StyleTaskBase Reset changes nothing. In Connect this shows as a Reset call that changes no state.
- MessageBox answers and Stopwatch times are inputs.
- Debug and Trace output is not modelled.
- These tasks run only as abstract `Perform` calls, because their work is done by the host's white-space and cursor operations or by one IDE command: RemoveMultipleBlankLines, BlockSpacing, CommentSpacing, FormatDocument, RunStyleCop, RunStyleCopRescanAll.
- SortFunctions.cs is not part of this model, as it is not registered in the add-in's task lists.
- The installers and the option window's UI code are not part of this model.

## Findings

| source | as written | input that shows it | evidently intended | confidence | as-written member | corrected member |
|---|---|---|---|---|---|---|
| Sweeper/Tasks/AddAccessModifiers.cs:65 | The walk only starts when the parent's kind is a key of CodeElementBlockTypes. DoWork only hands it namespaces, which are not a key. Line 71 re-tests the parent, not the child. The table is the one in SweeperHg/trunk/Sweeper/Tasks/StyleTaskBase.cs:27-38, which has no namespace key; this revision's own base class is not part of this model, so the finding assumes it has the same table. | A file whose one namespace holds an internal class declared `class Foo`: nothing is written. | The namespace's classes and structs are walked, as the trunk revision does with the tests removed. | not executed; high | `AddAccessModifiers.SweeperAsWrittenIsNoOp` | `AddAccessModifiers.WritesEveryTarget` |
| Sweeper/Connect.cs:377 | After the "No Active Document" and "isn't a valid project item" branches, the Sweeper command still calls `activeDoc.ProjectItem.Open`. | Exec of Sweeper.Connect.Sweeper with the default option and no active document: a null dereference, and the command is left unhandled. | The reopen happens only when there is a project item, as SweeperAll guards it at line 336. | not executed; high | `Connect.AsWrittenReopenFaults` | `Connect.CorrectedExecHandles` |
| Sweeper/Connect.cs:404 | SweeperOptions calls `projectItem.Open` on the active window's item without a null test. | Exec of Sweeper.Connect.SweeperOptions while the active window shows no project item, for example a tool window: a null dereference after the dialog closes. | The same null guard as at line 336. | not executed; medium | `Connect.AsWrittenReopenFaults` | `Connect.CorrectedExecHandles` |
