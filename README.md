# UMG controller generator, modelled in Dafny

The UMG controller generator is an Unreal Editor plugin. Given a widget
blueprint, it creates a native C++ `UUserWidget` subclass, the
"controller". The controller's header declares one `BindWidget` property
per widget that the user named. Its cpp file includes the headers of
those widgets' native classes. The generator rewrites only the text
between pairs of marker comments, so the files can later be regenerated
in place.

This project models the core of the plugin:

- **`CodeGenerator`**:
  - the marker splice done by `UpdateHeaderFile` and `UpdateCppFile`;
  - the automatic-name filter `GetNamedWidgets`;
  - the class walk `GetFirstNonGeneratedParent`;
  - the lazily created header lookup table;
  - the way `CreateFiles` and `UpdateFiles` fill the templates and sequence the loads, updates and saves.
- **`UHeaderLookupTable`**: the table from class name to include path, built from the Unreal Header Tool manifest.
- **`UBlueprintSourceMap`**: the persisted map from a blueprint to its two source files, and its batch repair.
- **`UFileCreationProcess`**: the state machine behind the add-to-project dialog and the live coding compile.
- **`CreateUmgController`**: the blueprint-callable entry point.

The editor, the file system and JSON do not appear in the model. Each
becomes a parameter: the manifest as parsed, the outcome of a load or a
save, the set of files that exist, the entries a directory walk visits,
and the set of blueprints that still load.

Modules, one per file:

| module | contents |
|---|---|
| `Strings` | the `FString` operations used: `Find`, `FindLastChar`, `Replace`, `StartsWith`, `RightChop`, `IsNumeric` |
| `Paths` | small abstract versions of the `FPaths` helpers |
| `Widgets` | the class arena, `GetFirstNonGeneratedParent`, `GetNamedWidgets` |
| `Templates` | the markers, the banner and the two file templates, with placeholder filling |
| `MarkerSplice` | the splice both update functions perform, and its laws |
| `Generator` | `UpdateHeaderFile`, `UpdateCppFile`, the `CodeGenerator` class with `CreateFiles`, its files-created callback and `UpdateFiles` |
| `Sections` | the generated sections never contain their end marker, so an update reads back and repeats |
| `LookupTable` | `UHeaderLookupTable` |
| `SourceMap` | `FFileMapBuilder`, `FBlueprintSourceModel`, `UBlueprintSourceMap` |
| `FileCreation` | `UFileCreationProcess` |
| `BPLibrary` | `UUmgControllerGeneratorPluginBPLibrary::CreateUmgController` |

The model follows a few conventions:

- Classes are positions in a sequence of `ClassInfo(name, generated, parent)`. Each parent sits at a smaller position, so the walk up the super classes terminates.
- A widget is a pair of its object name and its class position.
- Strings are `seq<char>`. All matching is case-sensitive.
- Objects that the source updates in place are Dafny classes with `modifies` clauses:
  - the generator's static state;
  - the lookup table;
  - the source map and its file-map visitor;
  - the file creation process.
- The `std::function` callbacks of `UFileCreationProcess` are named by numbers. Every call made to them is appended to a `log` field.

## Model

| member | source | states |
|---|---|---|
| Strings.FindIsFirstOccurrence | Source/UmgControllerGeneratorPlugin/Private/CodeGenerator.cpp:272-282 | `Find` gives -1 exactly when the pattern does not occur, and otherwise the position of its first occurrence |
| Strings.FindLastChar | Source/UmgControllerGeneratorPlugin/Private/UmgControllerGeneratorPluginBPLibrary.cpp:41 | the result is -1 exactly when the character is absent, and otherwise its last position |
| Strings.ReplaceAllRemovesChar | Source/UmgControllerGeneratorPlugin/Private/HeaderLookupTable.cpp:75-77 | after replacing every occurrence of a character by a text without it, the character no longer occurs |
| Paths.RelativeRoundTrip | Source/UmgControllerGeneratorPlugin/Private/BlueprintSourceMap.cpp:57-98 | a path made relative to the source directory and combined with it again is the path itself |
| Paths.CombineThenRelative | Source/UmgControllerGeneratorPlugin/Private/BlueprintSourceMap.cpp:82-98 | a stored relative path, combined with the source directory and made relative again, comes back |
| Widgets.SuperChain | Source/UmgControllerGeneratorPlugin/Private/CodeGenerator.cpp:399-401 | the chain the walk visits starts at the class itself and stays inside the class arena |
| Widgets.FirstNonGenerated | Source/UmgControllerGeneratorPlugin/Private/CodeGenerator.cpp:397-413 | what GetFirstNonGeneratedParent returns is a class of the arena |
| Widgets.NearestNativeAt | Source/UmgControllerGeneratorPlugin/Private/CodeGenerator.cpp:399-401 | the class the walk stops at is the first non-generated one of the chain: every class before it is generated |
| Widgets.NoNearestNativeIffAllGenerated | Source/UmgControllerGeneratorPlugin/Private/CodeGenerator.cpp:399-404 | the walk runs off the top of the chain exactly when every class of the chain is generated |
| Widgets.FirstNonGeneratedIsNearest | Source/UmgControllerGeneratorPlugin/Private/CodeGenerator.cpp:397-413 | the result is the nearest non-generated class, counting the input itself; if every class is generated, the input class comes back |
| Widgets.GetFirstNonGeneratedParent | Source/UmgControllerGeneratorPlugin/Private/CodeGenerator.cpp:397-413 | the `while` walk computes FirstNonGenerated |
| Widgets.ComparedNames | Source/UmgControllerGeneratorPlugin/Private/CodeGenerator.cpp:363-385 | the widget name loses a trailing `_<numeric>` and a generated class name loses its `_C` before the comparison |
| Widgets.GetNamedWidgets | Source/UmgControllerGeneratorPlugin/Private/CodeGenerator.cpp:359-395 | the loop keeps, in input order, exactly the widgets NamedWidgets keeps |
| Widgets.NamedWidgetsStep | Source/UmgControllerGeneratorPlugin/Private/CodeGenerator.cpp:389-391 | one more widget is appended to the result unless its name is automatic |
| Widgets.NamedWidgetsMembership | Source/UmgControllerGeneratorPlugin/Private/CodeGenerator.cpp:359-395 | a widget is kept if and only if it is an input widget whose name is not automatic |
| Widgets.NamedWidgetsIn | Source/UmgControllerGeneratorPlugin/Private/CodeGenerator.cpp:359-395 | the kept widgets are input widgets, so their classes are in the arena |
| Widgets.NamedWidgetsAppend | Source/UmgControllerGeneratorPlugin/Private/CodeGenerator.cpp:362-392 | the filter is order-preserving: it distributes over concatenation |
| Widgets.PlainClassNameIsAutomatic | Source/UmgControllerGeneratorPlugin/Private/CodeGenerator.cpp:375-391 | a widget named like its class ("Button") is dropped |
| Widgets.NumberedClassNameIsAutomatic | Source/UmgControllerGeneratorPlugin/Private/CodeGenerator.cpp:375-391 | "Button_3" of class Button is dropped |
| Widgets.NonNumericSuffixIsUserNamed | Source/UmgControllerGeneratorPlugin/Private/CodeGenerator.cpp:375-391 | "Button_3x" of class Button is kept |
| Widgets.OtherNameIsUserNamed | Source/UmgControllerGeneratorPlugin/Private/CodeGenerator.cpp:387-391 | "SubmitButton" of class Button is kept |
| Widgets.BlueprintClassNameIsAutomatic | Source/UmgControllerGeneratorPlugin/Private/CodeGenerator.cpp:367-373 | for a generated class WBP_Menu_C, the name "WBP_Menu_12" is automatic, because `_C` is dropped first |
| Templates.HeaderBlockMarkers | Source/UmgControllerGeneratorPlugin/Private/CodeGenerator.cpp:33-35 | the header template's properties block starts with the start marker and holds the end marker after the banner |
| Templates.CppBlockMarkers | Source/UmgControllerGeneratorPlugin/Private/CodeGenerator.cpp:58-61 | the cpp template's includes block starts with the start marker and holds the end marker after the banner |
| Templates.ReplaceKeepsBlock | Source/UmgControllerGeneratorPlugin/Private/CodeGenerator.cpp:124-127 | replacing a placeholder leaves a block without placeholder characters untouched where it stands |
| Templates.FilledHeaderAroundBlock | Source/UmgControllerGeneratorPlugin/Private/CodeGenerator.cpp:122-127 | after the four replacements, the header template still holds its properties block verbatim |
| Templates.FilledCppAroundBlock | Source/UmgControllerGeneratorPlugin/Private/CodeGenerator.cpp:137-140 | after the three replacements, the cpp template still holds its includes block verbatim |
| Templates.FilledHeaderHasMarkers | Source/UmgControllerGeneratorPlugin/Private/CodeGenerator.cpp:14-53 | whatever is filled in, the filled header template holds both properties markers |
| Templates.FilledCppHasMarkers | Source/UmgControllerGeneratorPlugin/Private/CodeGenerator.cpp:55-79 | whatever is filled in, the filled cpp template holds both includes markers |
| MarkerSplice.Splice | Source/UmgControllerGeneratorPlugin/Private/CodeGenerator.cpp:272-282 | the update is "" exactly when the start marker or the end marker is missing |
| MarkerSplice.SpliceKeepsOutside | Source/UmgControllerGeneratorPlugin/Private/CodeGenerator.cpp:284-307 | the output starts with the input up to and including the first start marker; it ends with the end marker, "\n", and the input after the end marker less one character |
| MarkerSplice.SpliceThenSection | Source/UmgControllerGeneratorPlugin/Private/CodeGenerator.cpp:284-307 | reading the section back from a spliced text gives the section written |
| MarkerSplice.SplicedStartMarker | Source/UmgControllerGeneratorPlugin/Private/CodeGenerator.cpp:272 | in a spliced text, the start marker is found where it was |
| MarkerSplice.SplicedEndMarker | Source/UmgControllerGeneratorPlugin/Private/CodeGenerator.cpp:278 | in a spliced text, the end marker is found right after the new section |
| MarkerSplice.SpliceIdempotent | Source/UmgControllerGeneratorPlugin/Private/CodeGenerator.cpp:268-310 | splicing the same section a second time changes nothing |
| MarkerSplice.SpliceReplacesSection | Source/UmgControllerGeneratorPlugin/Private/CodeGenerator.cpp:312-353 | a second splice over a spliced text equals splicing the second section into the original |
| Generator.PropertyDeclarations | Source/UmgControllerGeneratorPlugin/Private/CodeGenerator.cpp:289-303 | the declarations are empty exactly when there are no widgets, and otherwise end with a line break |
| Generator.PropertyDeclarationsStep | Source/UmgControllerGeneratorPlugin/Private/CodeGenerator.cpp:294-302 | each widget adds the label line and the pointer line of its first non-generated class, after "\n" unless it is first, in widget order |
| Generator.AppendPropertyDeclarations | Source/UmgControllerGeneratorPlugin/Private/CodeGenerator.cpp:289-303 | the loop appends exactly PropertyDeclarations of the named widgets |
| Generator.UpdateHeaderFile | Source/UmgControllerGeneratorPlugin/Private/CodeGenerator.cpp:268-310 | the result is the splice of the banner and the declarations between the properties markers, so it is "" exactly when a marker is missing |
| Generator.IncludePaths | Source/UmgControllerGeneratorPlugin/Private/CodeGenerator.cpp:335-338 | one looked-up include path per widget |
| Generator.CollectIncludePaths | Source/UmgControllerGeneratorPlugin/Private/CodeGenerator.cpp:333-342 | the set holds exactly the lookup results ("" for a missing class) of the widgets' first non-generated classes |
| Generator.AppendIncludeLines | Source/UmgControllerGeneratorPlugin/Private/CodeGenerator.cpp:344-346 | the order returned walks every set element exactly once, and the text gains one include line per element in that order |
| Generator.DistinctCardinality | Source/UmgControllerGeneratorPlugin/Private/CodeGenerator.cpp:334-346 | as many include lines as distinct include paths |
| Generator.CodeGenerator.UpdateCppFile | Source/UmgControllerGeneratorPlugin/Private/CodeGenerator.cpp:312-353 | the result is the splice of the banner and one include line per distinct include path; the table is made on first use and never touched when a marker is missing |
| Generator.CodeGenerator.constructor | Source/UmgControllerGeneratorPlugin/Public/CodeGenerator.h:22-23 | the table starts out unset; so do the process and the captured request |
| Generator.CodeGenerator.GetHeaderLookupTable | Source/UmgControllerGeneratorPlugin/Private/CodeGenerator.cpp:415-422 | on first use a table is made and filled from the manifest; afterwards the same table comes back unchanged |
| Generator.SavesAttempted | Source/UmgControllerGeneratorPlugin/Private/CodeGenerator.cpp:149-157 | nothing is saved unless both new contents are non-empty; the header is saved first; the cpp is saved only after the header save succeeds |
| Generator.FillHeader | Source/UmgControllerGeneratorPlugin/Private/CodeGenerator.cpp:122-127 | the four replacements, made in the source's order |
| Generator.FillCpp | Source/UmgControllerGeneratorPlugin/Private/CodeGenerator.cpp:137-140 | the three replacements, made in the source's order |
| Generator.FilledHeaderUpdates | Source/UmgControllerGeneratorPlugin/Private/CodeGenerator.cpp:129-134 | updating a filled header template never fails |
| Generator.FilledCppUpdates | Source/UmgControllerGeneratorPlugin/Private/CodeGenerator.cpp:142-147 | updating a filled cpp template never fails |
| Generator.BothUpdatesSaved | Source/UmgControllerGeneratorPlugin/Private/CodeGenerator.cpp:149-157 | once both updates succeed, the header save is attempted, and the cpp save when the header save succeeds |
| Generator.CreatedFilesAlwaysSaved | Source/UmgControllerGeneratorPlugin/Private/CodeGenerator.cpp:121-157 | for created files, the header save is always attempted and the cpp save whenever the header save succeeds |
| Generator.RecordCreatedFiles | Source/UmgControllerGeneratorPlugin/Private/CodeGenerator.cpp:159-163 | the map saved is the freshly loaded one, with the blueprint's relative pair added when both paths are under the game source directory |
| Generator.RecordWhenSaved | Source/UmgControllerGeneratorPlugin/Private/CodeGenerator.cpp:150-163 | a map is saved if and only if both file saves succeeded |
| Generator.CodeGenerator.CreateFiles | Source/UmgControllerGeneratorPlugin/Private/CodeGenerator.cpp:96-116 | the process is made once and reused, with both callbacks replaced; an awaited compile is abandoned, so no continuation is pending and no paths are stored; the request is captured; the dialog's prefix and name spell `widgetName + widgetSuffix` |
| Generator.CodeGenerator.UpdateAndSave | Source/UmgControllerGeneratorPlugin/Private/CodeGenerator.cpp:239-265 | the saves are those UpdateWrites gives; something is saved exactly when both updates succeeded; the table is untouched until the header has been updated; a table made during the call is built from the manifest, and the include lines come from it |
| Generator.CodeGenerator.CreateAndSave | Source/UmgControllerGeneratorPlugin/Private/CodeGenerator.cpp:117-157 | the filled templates are updated and saved: the header always, the cpp exactly when the header save succeeded; on first use the table the include lines come from is built from the manifest |
| Generator.CodeGenerator.OnFilesCreated | Source/UmgControllerGeneratorPlugin/Private/CodeGenerator.cpp:117-163 | the saves of the captured request; the source map is saved exactly when both files were saved, with the blueprint's entry added; on the generator's first use the lookup table is built here from the manifest |
| Generator.CodeGenerator.UpdateFiles | Source/UmgControllerGeneratorPlugin/Private/CodeGenerator.cpp:228-266 | nothing is saved when the header cannot be loaded, when an update fails or when the cpp cannot be loaded; otherwise the header is saved, then the cpp if that succeeded; a table made during the call is built from the manifest |
| Sections.HeaderSectionSpliceable | Source/UmgControllerGeneratorPlugin/Private/CodeGenerator.cpp:285-306 | the properties section never contains the end marker unless a class or widget name does |
| Sections.HeaderUpdateIdempotent | Source/UmgControllerGeneratorPlugin/Private/CodeGenerator.cpp:268-310 | UpdateHeaderFile of its own output with the same widgets changes nothing |
| Sections.HeaderUpdateReadBack | Source/UmgControllerGeneratorPlugin/Private/CodeGenerator.cpp:284-307 | the properties section of an updated header is exactly the one written |
| Sections.CppSectionSpliceable | Source/UmgControllerGeneratorPlugin/Private/CodeGenerator.cpp:329-349 | the includes section never contains the end marker unless an include path does |
| Sections.IncludePathsLack | Source/UmgControllerGeneratorPlugin/Private/CodeGenerator.cpp:333-342 | include paths come from the table or are "", so they lack the marker when the table's values do |
| Sections.CppUpdateOverUpdate | Source/UmgControllerGeneratorPlugin/Private/CodeGenerator.cpp:312-353 | UpdateCppFile of its own output equals updating the original file, whatever order the set is walked in |
| Sections.CppUpdateReadBack | Source/UmgControllerGeneratorPlugin/Private/CodeGenerator.cpp:328-350 | the includes section of an updated cpp is exactly the one written |
| LookupTable.Abbreviation | Source/UmgControllerGeneratorPlugin/Private/HeaderLookupTable.cpp:55-77 | a stored include path contains no backslash |
| LookupTable.AbbreviateHeaderPath | Source/UmgControllerGeneratorPlugin/Private/HeaderLookupTable.cpp:55-77 | the step-by-step shortening cuts the base directory, one "\", "Public\" and "Private\", in that order, and turns "\" into "/" |
| LookupTable.AbbreviationOfPublicHeader | Source/UmgControllerGeneratorPlugin/Private/HeaderLookupTable.cpp:63-67 | a header in the module's Public folder is stored as its path below that folder |
| LookupTable.AbbreviationOfPublicPrivateHeader | Source/UmgControllerGeneratorPlugin/Private/HeaderLookupTable.cpp:63-73 | "Public\Private\" is dropped, Public first |
| LookupTable.HeaderEntry | Source/UmgControllerGeneratorPlugin/Private/HeaderLookupTable.cpp:52-86 | a header adds an entry if and only if it lies under the base directory |
| LookupTable.AddEntriesKeeps | Source/UmgControllerGeneratorPlugin/Private/HeaderLookupTable.cpp:79-83 | an entry already present is never changed or removed |
| LookupTable.AddEntriesKeys | Source/UmgControllerGeneratorPlugin/Private/HeaderLookupTable.cpp:79-80 | the keys added are exactly the class names of the entries |
| LookupTable.AddEntriesFirstWins | Source/UmgControllerGeneratorPlugin/Private/HeaderLookupTable.cpp:79-83 | the first entry for a new class name decides its path |
| LookupTable.AddHeadersKeys | Source/UmgControllerGeneratorPlugin/Private/HeaderLookupTable.cpp:49-87 | the class names added are the base file names of the headers under the base directory |
| LookupTable.AddHeadersFirstWins | Source/UmgControllerGeneratorPlugin/Private/HeaderLookupTable.cpp:49-87 | the first header under the base directory for a new class decides its include path |
| LookupTable.PrivateHeaderWins | Source/UmgControllerGeneratorPlugin/Private/HeaderLookupTable.cpp:89-91 | within a module, a private header wins over internal and public ones |
| LookupTable.BuildTableKeeps | Source/UmgControllerGeneratorPlugin/Private/HeaderLookupTable.cpp:45-92 | an entry made by an earlier module survives every later module |
| LookupTable.BuildTableNoBackslash | Source/UmgControllerGeneratorPlugin/Private/HeaderLookupTable.cpp:43-92 | no include path in a built table holds a backslash |
| LookupTable.HeaderLookupTable.constructor | Source/UmgControllerGeneratorPlugin/Private/HeaderLookupTable.h:16-26 | a new table is empty |
| LookupTable.HeaderLookupTable.InitTable | Source/UmgControllerGeneratorPlugin/Private/HeaderLookupTable.cpp:15-96 | a manifest that cannot be loaded or parsed leaves the table as it was; otherwise the table is rebuilt from empty |
| LookupTable.HeaderLookupTable.AddHeaderArray | Source/UmgControllerGeneratorPlugin/Private/HeaderLookupTable.cpp:47-88 | the `addHeaders` loop adds each new class of a header list |
| LookupTable.HeaderLookupTable.GetIncludeFilePathFor | Source/UmgControllerGeneratorPlugin/Private/HeaderLookupTable.cpp:98-103 | the stored path for a known class, "" otherwise |
| SourceMap.EmptyModelIsInvalid | Source/UmgControllerGeneratorPlugin/Private/BlueprintSourceMap.h:10-16 | a default model is invalid; a model is valid exactly when both paths are non-empty |
| SourceMap.FileMapBuilder.constructor | Source/UmgControllerGeneratorPlugin/Private/BlueprintSourceMap.cpp:17-18 | the file map starts empty |
| SourceMap.FileMapBuilder.Visit | Source/UmgControllerGeneratorPlugin/Private/BlueprintSourceMap.cpp:20-30 | directories and names already seen leave the map unchanged; a new file is recorded under its clean name; the walk always goes on |
| SourceMap.IterateDirectory | Source/UmgControllerGeneratorPlugin/Private/BlueprintSourceMap.cpp:131-132 | the visitor's map after the walk is FileMapAfter of the visits |
| SourceMap.FileMapAfterKeeps | Source/UmgControllerGeneratorPlugin/Private/BlueprintSourceMap.cpp:23-27 | a recorded name is never changed by later visits |
| SourceMap.VisitStepKeys | Source/UmgControllerGeneratorPlugin/Private/BlueprintSourceMap.cpp:21-24 | one visit records its file's clean name and nothing else |
| SourceMap.FileMapAfterKeys | Source/UmgControllerGeneratorPlugin/Private/BlueprintSourceMap.cpp:20-30 | the names recorded are exactly the clean names of visited files |
| SourceMap.FileMapFirstWins | Source/UmgControllerGeneratorPlugin/Private/BlueprintSourceMap.cpp:23-27 | the first file with a given name is the one recorded |
| SourceMap.FileMapValuesVisited | Source/UmgControllerGeneratorPlugin/Private/BlueprintSourceMap.cpp:24 | every recorded path is a visited file of that name |
| SourceMap.BlueprintSourceMap.constructor | Source/UmgControllerGeneratorPlugin/Private/BlueprintSourceMap.h:36-81 | a new map is empty and has no directories |
| SourceMap.BlueprintSourceMap.GetFilePath | Source/UmgControllerGeneratorPlugin/Private/BlueprintSourceMap.cpp:219-221 | the path is the source map directory, one separator and BlueprintSourceMap.json, so the file lies directly in that directory |
| SourceMap.BlueprintSourceMap.LoadMapping | Source/UmgControllerGeneratorPlugin/Private/BlueprintSourceMap.cpp:33-55 | a missing or unreadable file leaves the map as it was; a corrupt one leaves it empty; a parsed one replaces it |
| SourceMap.BlueprintSourceMap.AddMapping | Source/UmgControllerGeneratorPlugin/Private/BlueprintSourceMap.cpp:57-80 | all or nothing: if either path is outside the source directory nothing changes; otherwise only the blueprint's key maps to the relative pair, and reading it back as absolute paths gives the paths passed in |
| SourceMap.BlueprintSourceMap.GetSourcePathsFor | Source/UmgControllerGeneratorPlugin/Private/BlueprintSourceMap.cpp:82-98 | an absent key gives the invalid empty model; a present one gives the stored pair, or paths that relativise back to it |
| SourceMap.RepairKeepsLiveEntry | Source/UmgControllerGeneratorPlugin/Private/BlueprintSourceMap.cpp:149-172 | an entry whose header and cpp both exist is left as it is |
| SourceMap.RebuiltEntryHalves | Source/UmgControllerGeneratorPlugin/Private/BlueprintSourceMap.cpp:149-199 | a rebuilt entry keeps each existing half verbatim and re-resolves a missing half by its expected file name, or "" if there is none |
| SourceMap.RepairReplaces | Source/UmgControllerGeneratorPlugin/Private/BlueprintSourceMap.cpp:172-198 | when a half is missing and both halves resolve, the entry is replaced or created |
| SourceMap.UnrelatableFileSkips | Source/UmgControllerGeneratorPlugin/Private/BlueprintSourceMap.cpp:174-190 | a found file outside the source directory skips the blueprint and leaves its entry untouched |
| SourceMap.RepairedMapOtherKeys | Source/UmgControllerGeneratorPlugin/Private/BlueprintSourceMap.cpp:137-200 | the repair loop touches only the entries of the blueprints it is given |
| SourceMap.RepairedMapKeepsKeys | Source/UmgControllerGeneratorPlugin/Private/BlueprintSourceMap.cpp:137-200 | the repair loop never drops an entry |
| SourceMap.PrunedEntries | Source/UmgControllerGeneratorPlugin/Private/BlueprintSourceMap.cpp:204-213 | after pruning, a key remains exactly when its blueprint exists, and its value is unchanged |
| SourceMap.RemovalIsPruning | Source/UmgControllerGeneratorPlugin/Private/BlueprintSourceMap.cpp:204-213 | removing the collected keys is pruning |
| SourceMap.BlueprintSourceMap.KeysToRemove | Source/UmgControllerGeneratorPlugin/Private/BlueprintSourceMap.cpp:204-209 | the keys collected are exactly those whose blueprint no longer exists |
| SourceMap.BlueprintSourceMap.RemoveKeys | Source/UmgControllerGeneratorPlugin/Private/BlueprintSourceMap.cpp:211-213 | exactly the given keys are removed |
| SourceMap.BlueprintSourceMap.RemoveMissingBlueprints | Source/UmgControllerGeneratorPlugin/Private/BlueprintSourceMap.cpp:204-213 | the map becomes its pruning by the existing blueprints |
| SourceMap.BlueprintSourceMap.RepairEntry | Source/UmgControllerGeneratorPlugin/Private/BlueprintSourceMap.cpp:138-199 | one pass of the loop, including the `continue` paths, applies RepairFor |
| SourceMap.BlueprintSourceMap.UpdateMappings | Source/UmgControllerGeneratorPlugin/Private/BlueprintSourceMap.cpp:128-217 | a failed walk returns false and changes nothing; otherwise the map is repaired and pruned, and the result is the save's |
| FileCreation.WithoutTrailingSeparator | Source/UmgControllerGeneratorPlugin/Private/FileCreationProcess.cpp:98-101 | one trailing "\" or "/" is dropped, and nothing else changes |
| FileCreation.LocateFiles | Source/UmgControllerGeneratorPlugin/Private/FileCreationProcess.cpp:85-115 | the files are found exactly when the header exists and the cpp exists beside it or in the Private fallback; the cpp beside the header is preferred |
| FileCreation.FindNewFiles | Source/UmgControllerGeneratorPlugin/Private/FileCreationProcess.cpp:85-115 | the statements compute LocateFiles |
| FileCreation.PrivateCppIsSibling | Source/UmgControllerGeneratorPlugin/Private/FileCreationProcess.cpp:98-104 | for a class path `<parent>/<folder>/`, the fallback cpp is `<parent>/Private/<class>.cpp`, whichever separator ends the class path |
| FileCreation.FileCreationProcess.constructor | Source/UmgControllerGeneratorPlugin/Private/FileCreationProcess.h:35-38 | no compile is awaited and no callback has been called |
| FileCreation.FileCreationProcess.Start | Source/UmgControllerGeneratorPlugin/Private/FileCreationProcess.cpp:21-78 | both callbacks are replaced; an awaited compile is abandoned and its state cleared; the prefix and name spell the default name, the prefix being its first character when it is longer than one |
| FileCreation.FileCreationProcess.OnFileAdded | Source/UmgControllerGeneratorPlugin/Private/FileCreationProcess.cpp:80-140 | a missing file fires the error callback once and changes nothing else; with auto-compile the paths are stored and the continuation set; without it the files-created callback fires with the stored paths |
| FileCreation.FileCreationProcess.OnFileAddedCorrected | Source/UmgControllerGeneratorPlugin/Private/FileCreationProcess.cpp:136-139 | as OnFileAdded, but without auto-compile the located paths, which exist, are reported |
| FileCreation.FileCreationProcess.OnLiveCodingPatchComplete | Source/UmgControllerGeneratorPlugin/Private/FileCreationProcess.cpp:142-147 | nothing happens without a continuation; otherwise the stored paths are reported once and the state is cleared |
| FileCreation.EmptyPathsReported | Source/UmgControllerGeneratorPlugin/Private/FileCreationProcess.cpp:136-139 | without auto-compile, a fresh process reports two empty paths for files it found |
| FileCreation.FoundPathsReported | Source/UmgControllerGeneratorPlugin/Private/FileCreationProcess.cpp:136-139 | the corrected process reports the paths it found |
| BPLibrary.ControllerName | Source/UmgControllerGeneratorPlugin/Private/UmgControllerGeneratorPluginBPLibrary.cpp:30-34 | a leading "WBP_" is removed, and the name is unchanged otherwise |
| BPLibrary.ContentPath | Source/UmgControllerGeneratorPlugin/Private/UmgControllerGeneratorPluginBPLibrary.cpp:37-43 | the path name is cut just before its last '.', and is unchanged when it has none |
| BPLibrary.ContentPathOfObjectPath | Source/UmgControllerGeneratorPlugin/Private/UmgControllerGeneratorPluginBPLibrary.cpp:37-43 | an object path `package.object` gives back its package path |
| BPLibrary.CollectWidgets | Source/UmgControllerGeneratorPlugin/Private/UmgControllerGeneratorPluginBPLibrary.cpp:24-28 | every visited widget is collected once, in traversal order |
| BPLibrary.CreateUmgController | Source/UmgControllerGeneratorPlugin/Private/UmgControllerGeneratorPluginBPLibrary.cpp:14-54 | an object that is not a widget blueprint changes nothing; otherwise CreateFiles gets the derived name, the suffix "Controller", the content path and the widgets; the lookup table is untouched, the process log is kept, and no compile, continuation or stored path is left pending |

## Left out

- Unreal string semantics:
  - `FString::Find`, `Replace`, `StartsWith` and `EndsWith` are case-insensitive by default, as are `TMap<FString>` keys. The model matches case-sensitively.
  - `IsNumeric` is modelled as a non-empty string with an optional sign and digits with at most one '.'.
- `FPaths` helpers are small abstract functions, not the engine's implementations: `Combine`, `MakePathRelativeTo`, `GetCleanFilename`, `GetBaseFilename`, `GetPath`. `Combine` inserts one '/'. `MakePathRelativeTo` strips the directory prefix and fails outside it.
- `FPaths::GameSourceDir` and `ProjectDir` are parameters, and so is `AutomaticallyCompileNewClasses`.
- I/O is replaced by parameters:
  - file loads and saves;
  - `FileExists`, `MakeDirectory`, `IterateDirectoryRecursively`;
  - JSON conversion;
  - the UHT manifest path assembled from build macros;
  - `StaticLoadObject` in `DoesBlueprintExist`.
- `SaveMapping` is a success flag. Its result is ignored after `CreateFiles`, as in the source.
- A corrupt map file gives an empty map in the model, because the map is emptied before parsing. What a partial parse leaves behind is not modelled.
- The order in which a `TSet` is walked (`UpdateCppFile`) is not fixed by the model. Only membership and the absence of repetitions are stated.
- Live coding is not modelled. This covers the compile call, the `_onPatchingComplete` continuation of `CreateFiles` (the class search by `TObjectIterator`, `ReparentBlueprint` and `PromptForCheckoutAndSave`), and the patch-complete delegate registration (CodeGenerator.cpp:101-111, 165-217). Logging and the timing in `InitTable` are also left out.
- The add-to-project dialog is left out. `Start` returns the prefix and the name the dialog would be opened with.
- The `std::function` closures are modelled as data:
  - The files-created lambda of `CreateFiles` is `Generator.CodeGenerator.OnFilesCreated`, acting on the request captured in `pendingRequest`.
  - The error lambda only logs, so it is not modelled.
  - Each callback is named by a number.
- The `headerPath` and `cppPath` parameters of `CreateUmgController` and `CreateFiles` are passed on but never used by the source. The model keeps them in `CreateUmgController` only.
- `UpdateUmgController` and `UpdateMappings` of the blueprint library (Public/UmgControllerGeneratorPluginBPLibrary.h:21,24) are declared but not defined in the source files, so they are not part of this model.
- The headers and the definitions disagree in places; the model follows the definitions:
  - CodeGenerator.h:12 declares `CreateFiles` without the `blueprint` parameter.
  - `_currentProcess` and `_onPatchingComplete` are used but not declared in CodeGenerator.h.
  - BlueprintSourceMap.h:63,71 declare `SaveMapping` and `UpdateMappings` as `void`, while the definitions return `bool`.
  - `DoesBlueprintExist` is not declared in BlueprintSourceMap.h.
- The widget tree is a sequence in `ForEachWidget` order. The tree structure itself is not modelled.
- Module startup, `UCodeEventSignaler`, `UCodeGeneratorConfig` and the plain manifest structs hold no logic beyond their shape. Only that shape is modelled, as `LookupTable.ModuleModel`.

## Findings

| source | as written | input that shows it | evidently intended | confidence | as-written member | corrected member |
|---|---|---|---|---|---|---|
| Source/UmgControllerGeneratorPlugin/Private/FileCreationProcess.cpp:136-139 | without automatic compilation, the files-created callback is given the member fields `_headerPath` and `_cppPath`, which are empty then | a fresh process, class "Menu" in "Src/", where Src/Menu.h and Src/Menu.cpp both exist, live coding not compiling new classes: the callback receives "" and "" | report the located `headerPath` and `cppPath` | not executed | FileCreation.EmptyPathsReported | FileCreation.FoundPathsReported |
