/**
 * CodeGenerator: regenerates the properties section of a controller header
 * and the includes section of its cpp file, and sequences the loads, the
 * updates and the saves when files are created or updated.
 */
module Generator {
  import opened Strings
  import opened Paths
  import opened Widgets
  import opened MarkerSplice
  import opened Templates
  import LookupTable
  import FileCreation
  import SourceMap

  // ---------------------------------------------------------------------
  // The header's properties section

  /** The two lines that declare one bound widget of class `U<className>`: the BindWidget label, then the pointer. */
  function PropertyDeclaration(className: string, widgetName: string): string
  {
    "    " + BindWidgetLabel + "\n" + "    class U" + className + "* " + widgetName + " = nullptr;\n"
  }

  /** The class a widget is declared with: its first non-generated class. */
  function DeclaredClassName(classes: seq<ClassInfo>, w: Widget): string
    requires ValidArena(classes) && w.cls < |classes|
  {
    classes[FirstNonGenerated(classes, w.cls)].name
  }

  /** The declarations of the widgets, in their order, separated by an empty line. */
  function PropertyDeclarations(classes: seq<ClassInfo>, widgets: seq<Widget>): (r: string)
    requires ValidArena(classes) && WidgetsIn(classes, widgets)
    ensures |r| == 0 <==> |widgets| == 0
    ensures |r| > 0 ==> r[|r| - 1] == '\n'
  {
    if |widgets| == 0 then []
    else
      var n := |widgets| - 1;
      var w := widgets[n];
      PropertyDeclarations(classes, widgets[..n]) + (if n == 0 then "" else "\n") +
        PropertyDeclaration(DeclaredClassName(classes, w), w.name)
  }

  /** What UpdateHeaderFile puts between the properties markers. */
  function HeaderSection(classes: seq<ClassInfo>, namedWidgets: seq<Widget>): string
    requires ValidArena(classes) && WidgetsIn(classes, namedWidgets)
  {
    "\n" + DoNotModifyComment + "\n" + PropertyDeclarations(classes, namedWidgets)
  }

  /**
   * CodeGenerator::UpdateHeaderFile: keeps the header up to the properties
   * start marker, writes the banner and one declaration per named widget,
   * then the end marker and the rest of the header; "" when a marker is
   * missing.
   */
  method UpdateHeaderFile(classes: seq<ClassInfo>, namedWidgets: seq<Widget>, headerContents: string) returns (result: string)
    requires ValidArena(classes) && WidgetsIn(classes, namedWidgets)
    ensures result == Splice(headerContents, PropertiesSectionStartMarker, PropertiesSectionEndMarker,
                             HeaderSection(classes, namedWidgets))
  {
    var startMarker, endMarker, banner := PropertiesSectionStartMarker, PropertiesSectionEndMarker, DoNotModifyComment;
    var propertiesSectionStartIndex := Find(headerContents, startMarker);
    if propertiesSectionStartIndex < 0 {
      return [];
    }
    var propertiesSectionEndIndex := Find(headerContents, endMarker);
    if propertiesSectionEndIndex < 0 {
      return [];
    }

    result := headerContents[..propertiesSectionStartIndex + |startMarker|];
    result := result + "\n";
    result := result + banner + "\n";
    result := AppendPropertyDeclarations(classes, namedWidgets, result);
    result := result + endMarker + "\n";
    result := result + RightChop(headerContents, propertiesSectionEndIndex + |endMarker| + 1);
    SpliceOfPieces(headerContents, startMarker, endMarker, banner, PropertyDeclarations(classes, namedWidgets),
                   propertiesSectionStartIndex, propertiesSectionEndIndex, result);
  }

  /** The loop of UpdateHeaderFile: appends the declaration of each named widget, separated by an empty line. */
  method AppendPropertyDeclarations(classes: seq<ClassInfo>, namedWidgets: seq<Widget>, head: string) returns (result: string)
    requires ValidArena(classes) && WidgetsIn(classes, namedWidgets)
    ensures result == head + PropertyDeclarations(classes, namedWidgets)
  {
    var bindLabel := BindWidgetLabel;
    result := head;
    var isFirst := true;
    for i := 0 to |namedWidgets|
      invariant isFirst <==> i == 0
      invariant result == head + PropertyDeclarations(classes, namedWidgets[..i])
    {
      var widget := namedWidgets[i];
      var widgetName := widget.name;
      var widgetClass := GetFirstNonGeneratedParent(classes, widget.cls);
      var widgetClassName := classes[widgetClass].name;
      ghost var before, sep := result, if isFirst then "" else "\n";
      if !isFirst {
        result := result + "\n";
      }
      assert result == before + sep;
      result := result + "    " + bindLabel + "\n";
      result := result + "    class U" + widgetClassName + "* " + widgetName + " = nullptr;\n";
      isFirst := false;
      DeclarationsExtended(classes, namedWidgets, i, head, before, sep, result);
    }
    assert namedWidgets[..|namedWidgets|] == namedWidgets;
  }

  /** The text one pass of the loop appends is the declaration of the widget. */
  lemma DeclarationAppended(before: string, sep: string, className: string, widgetName: string, after: string)
    requires after == before + sep + "    " + BindWidgetLabel + "\n" + "    class U" + className + "* " + widgetName + " = nullptr;\n"
    ensures after == before + sep + PropertyDeclaration(className, widgetName)
  {
    Regroup8(before + sep, "    ", BindWidgetLabel, "\n", "    class U", className, "* ", widgetName, " = nullptr;\n");
  }

  /** One pass of the loop of UpdateHeaderFile extends the declarations by the next widget's. */
  lemma DeclarationsExtended(classes: seq<ClassInfo>, widgets: seq<Widget>, i: nat, head: string, before: string, sep: string,
                              after: string)
    requires ValidArena(classes) && WidgetsIn(classes, widgets) && i < |widgets|
    requires before == head + PropertyDeclarations(classes, widgets[..i])
    requires sep == if i == 0 then "" else "\n"
    requires after == before + sep + "    " + BindWidgetLabel + "\n" +
      "    class U" + DeclaredClassName(classes, widgets[i]) + "* " + widgets[i].name + " = nullptr;\n"
    ensures after == head + PropertyDeclarations(classes, widgets[..i + 1])
  {
    WidgetsInPrefix(classes, widgets, i);
    WidgetsInPrefix(classes, widgets, i + 1);
    var name := DeclaredClassName(classes, widgets[i]);
    DeclarationAppended(before, sep, name, widgets[i].name, after);
    PropertyDeclarationsStep(classes, widgets, i);
    ListExtended(head, PropertyDeclarations(classes, widgets[..i]), sep, PropertyDeclaration(name, widgets[i].name),
                 PropertyDeclarations(classes, widgets[..i + 1]), before, after);
  }

  /** One more widget adds its declaration, after an empty line unless it is the first. */
  lemma PropertyDeclarationsStep(classes: seq<ClassInfo>, widgets: seq<Widget>, i: nat)
    requires ValidArena(classes) && WidgetsIn(classes, widgets) && i < |widgets|
    ensures PropertyDeclarations(classes, widgets[..i + 1]) ==
      PropertyDeclarations(classes, widgets[..i]) + (if i == 0 then "" else "\n") +
      PropertyDeclaration(DeclaredClassName(classes, widgets[i]), widgets[i].name)
  {
    assert widgets[..i + 1][..i] == widgets[..i];
  }

  /** Appending eight pieces one by one appends their concatenation. */
  lemma Regroup8(r: string, a: string, b: string, c: string, d: string, e: string, f: string, g: string, h: string)
    ensures r + a + b + c + d + e + f + g + h == r + (a + b + c + d + e + f + g + h)
  {
  }

  /** Appending a separator and an item after a text that ends with a list extends the list. */
  lemma ListExtended(head: string, list: string, sep: string, item: string, extended: string, before: string, after: string)
    requires before == head + list && after == before + sep + item && extended == list + sep + item
    ensures after == head + extended
  {
  }

  // ---------------------------------------------------------------------
  // The cpp file's includes section

  /** The include path looked up for a widget's first non-generated class, "" when the table has none. */
  function IncludePathFor(classes: seq<ClassInfo>, table: map<string, string>, w: Widget): string
    requires ValidArena(classes) && w.cls < |classes|
  {
    var name := DeclaredClassName(classes, w);
    if name in table then table[name] else ""
  }

  /** The include path of each widget, in widget order. */
  function IncludePaths(classes: seq<ClassInfo>, table: map<string, string>, widgets: seq<Widget>): (r: seq<string>)
    requires ValidArena(classes) && WidgetsIn(classes, widgets)
    ensures |r| == |widgets|
  {
    seq(|widgets|, i requires 0 <= i < |widgets| => IncludePathFor(classes, table, widgets[i]))
  }

  /** One include line. */
  function IncludeLine(includePath: string): string
  {
    "#include \"" + includePath + "\"\n"
  }

  /** The include lines for the paths in the order given. */
  function IncludeLines(includePaths: seq<string>): string
  {
    if |includePaths| == 0 then []
    else IncludeLines(includePaths[..|includePaths| - 1]) + IncludeLine(includePaths[|includePaths| - 1])
  }

  /** What UpdateCppFile puts between the includes markers, for the order the set is walked in. */
  function CppSection(includePaths: seq<string>): string
  {
    "\n" + DoNotModifyComment + "\n" + IncludeLines(includePaths)
  }

  /** Appending the include line of one more path extends the include lines by it. */
  lemma IncludeLineAppended(head: string, order: seq<string>, includePath: string, before: string, after: string)
    requires before == head + IncludeLines(order)
    requires after == before + "#include \"" + includePath + "\"\n"
    ensures after == head + IncludeLines(order + [includePath])
  {
    assert (order + [includePath])[..|order|] == order;
    assert IncludeLines(order + [includePath]) == IncludeLines(order) + IncludeLine(includePath);
  }

  /** No element of `s` occurs twice. */
  predicate Distinct(s: seq<string>)
  {
    forall i, j :: 0 <= i < j < |s| ==> s[i] != s[j]
  }

  /** Moving one path of the set from the paths left to the order walked keeps the order an enumeration of what was taken. */
  lemma IncludePathTaken(includes: set<string>, left: set<string>, order: seq<string>, x: string)
    requires x in left && left <= includes
    requires Elements(order) == includes - left && Distinct(order)
    ensures Elements(order + [x]) == includes - (left - {x}) && Distinct(order + [x])
    ensures left - {x} <= includes && |left - {x}| < |left|
  {
    DistinctAppend(order, x);
  }

  /** Appending an element not yet present keeps a sequence free of repetitions and adds exactly that element. */
  lemma DistinctAppend(s: seq<string>, x: string)
    requires Distinct(s) && x !in Elements(s)
    ensures Distinct(s + [x]) && Elements(s + [x]) == Elements(s) + {x}
  {
    ElementsAppend(s, x);
  }

  /** A sequence without repetitions has as many elements as its set. */
  lemma {:induction false} DistinctCardinality(s: seq<string>)
    requires Distinct(s)
    ensures |Elements(s)| == |s|
  {
    if |s| > 0 {
      var n := |s| - 1;
      DistinctCardinality(s[..n]);
      assert s == s[..n] + [s[n]];
      ElementsAppend(s[..n], s[n]);
      assert s[n] !in Elements(s[..n]);
    }
  }

  /**
   * The first loop of UpdateCppFile: the set of include paths the table
   * gives for the first non-generated classes of the widgets ("" for a
   * class it does not know).
   */
  method CollectIncludePaths(classes: seq<ClassInfo>, namedWidgets: seq<Widget>, lookupTable: LookupTable.HeaderLookupTable)
    returns (includes: set<string>)
    requires ValidArena(classes) && WidgetsIn(classes, namedWidgets)
    ensures includes == Elements(IncludePaths(classes, lookupTable.lookupTable, namedWidgets))
  {
    ghost var paths := IncludePaths(classes, lookupTable.lookupTable, namedWidgets);
    includes := {};
    for i := 0 to |namedWidgets|
      invariant includes == Elements(paths[..i])
    {
      var widgetClass := GetFirstNonGeneratedParent(classes, namedWidgets[i].cls);
      var name := classes[widgetClass].name;
      var headerFilePath := lookupTable.GetIncludeFilePathFor(name);
      assert headerFilePath == paths[i];
      if headerFilePath !in includes {
        includes := includes + {headerFilePath};
      }
      assert paths[..i + 1] == paths[..i] + [paths[i]];
      ElementsAppend(paths[..i], paths[i]);
    }
    assert paths[..|namedWidgets|] == paths;
  }

  /**
   * The second loop of UpdateCppFile: appends one include line per element
   * of the set, each once, in the order the set is walked in, which the
   * model leaves open and returns as `order`.
   */
  method AppendIncludeLines(includes: set<string>, head: string) returns (result: string, order: seq<string>)
    ensures Distinct(order) && Elements(order) == includes
    ensures result == head + IncludeLines(order)
  {
    result, order := head, [];
    var left := includes;
    while left != {}
      invariant left <= includes
      invariant Elements(order) == includes - left
      invariant Distinct(order)
      invariant result == head + IncludeLines(order)
      decreases |left|
    {
      var includePath :| includePath in left;
      ghost var before := result;
      result := result + "#include \"" + includePath + "\"\n";
      IncludeLineAppended(head, order, includePath, before, result);
      IncludePathTaken(includes, left, order, includePath);
      order := order + [includePath];
      left := left - {includePath};
    }
  }

  // ---------------------------------------------------------------------
  // The generator's state and its operations on files

  /** A file save the generator attempts. */
  datatype FileWrite = FileWrite(path: string, contents: string)

  /**
   * The saves UpdateFiles and the files-created callback attempt, in order,
   * given the two updated contents ("" when an update failed) and whether
   * the header save succeeds: nothing unless both updates succeeded, the
   * header first, and the cpp only after the header was saved.
   */
  function SavesAttempted(headerPath: string, header: string, cppPath: string, cpp: string, headerSaved: bool): (r: seq<FileWrite>)
    ensures r == [] <==> header == [] || cpp == []
    ensures |r| > 0 ==> r[0] == FileWrite(headerPath, header)
    ensures |r| == 2 <==> header != [] && cpp != [] && headerSaved
    ensures |r| == 2 ==> r[1] == FileWrite(cppPath, cpp)
    ensures |r| <= 2
  {
    if header == [] || cpp == [] then []
    else [FileWrite(headerPath, header)] + (if headerSaved then [FileWrite(cppPath, cpp)] else [])
  }

  /** The header after UpdateHeaderFile with the named widgets among `widgets` ("" when a marker is missing). */
  function HeaderUpdate(classes: seq<ClassInfo>, widgets: seq<Widget>, headerContents: string): string
    requires ValidArena(classes) && WidgetsIn(classes, widgets)
  {
    NamedWidgetsIn(classes, widgets);
    Splice(headerContents, PropertiesSectionStartMarker, PropertiesSectionEndMarker,
           HeaderSection(classes, NamedWidgets(classes, widgets)))
  }

  /** The cpp after UpdateCppFile wrote its include lines in `includeOrder` ("" when a marker is missing). */
  function CppUpdate(cppContents: string, includeOrder: seq<string>): string
  {
    Splice(cppContents, IncludeSectionStartMarker, IncludeSectionEndMarker, CppSection(includeOrder))
  }

  /** What the files-created callback of CreateFiles captures. */
  datatype CreateRequest = CreateRequest(blueprintPath: string, widgetPath: string, widgetName: string,
                                         widgetSuffix: string, widgets: seq<Widget>, className: string)

  /**
   * The saves UpdateFiles and the files-created callback attempt once the
   * header's contents are at hand: the header is updated; the cpp only once
   * that succeeded, and only if its contents are available.
   */
  function UpdateWrites(classes: seq<ClassInfo>, widgets: seq<Widget>, headerPath: string, headerContents: string,
                        cppPath: string, cppContents: Option<string>, includeOrder: seq<string>, headerSaved: bool): seq<FileWrite>
    requires ValidArena(classes) && WidgetsIn(classes, widgets)
  {
    var header := HeaderUpdate(classes, widgets, headerContents);
    var cpp := if header != [] && cppContents.Some? then CppUpdate(cppContents.value, includeOrder) else [];
    SavesAttempted(headerPath, header, cppPath, cpp, headerSaved)
  }

  /**
   * The saves the files-created callback attempts for `req`: both templates
   * filled, the header file name being the header path's base name.
   */
  function CreatedWrites(classes: seq<ClassInfo>, req: CreateRequest, headerFilePath: string, cppFilePath: string,
                         includeOrder: seq<string>, headerSaved: bool): seq<FileWrite>
    requires ValidArena(classes) && WidgetsIn(classes, req.widgets)
  {
    var headerFileName := BaseFilename(headerFilePath);
    UpdateWrites(classes, req.widgets, headerFilePath, FillHeaderTemplate(req.widgetName, req.widgetSuffix, req.widgetPath, headerFileName),
                 cppFilePath, Some(FillCppTemplate(req.widgetName, req.widgetSuffix, headerFileName)), includeOrder, headerSaved)
  }

  /** CreatedWrites, once both templates have been filled. */
  lemma CreatedWritesOfFilled(classes: seq<ClassInfo>, req: CreateRequest, headerFilePath: string, cppFilePath: string,
                              includeOrder: seq<string>, headerSaved: bool, headerFile: string, cppFile: string)
    requires ValidArena(classes) && WidgetsIn(classes, req.widgets)
    requires headerFile == FillHeaderTemplate(req.widgetName, req.widgetSuffix, req.widgetPath, BaseFilename(headerFilePath))
    requires cppFile == FillCppTemplate(req.widgetName, req.widgetSuffix, BaseFilename(headerFilePath))
    ensures CreatedWrites(classes, req, headerFilePath, cppFilePath, includeOrder, headerSaved)
         == UpdateWrites(classes, req.widgets, headerFilePath, headerFile, cppFilePath, Some(cppFile), includeOrder, headerSaved)
  {
  }

  /**
   * A created controller always has its header saved, and its cpp whenever
   * the header save succeeds: whatever is filled into the templates, they
   * keep both pairs of markers, so neither update comes back empty.
   */
  lemma CreatedFilesAlwaysSaved(classes: seq<ClassInfo>, req: CreateRequest, headerFilePath: string, cppFilePath: string,
                                includeOrder: seq<string>, headerSaved: bool)
    requires ValidArena(classes) && WidgetsIn(classes, req.widgets)
    ensures |CreatedWrites(classes, req, headerFilePath, cppFilePath, includeOrder, headerSaved)| == if headerSaved then 2 else 1
  {
    var headerFileName := BaseFilename(headerFilePath);
    var header := FillHeaderTemplate(req.widgetName, req.widgetSuffix, req.widgetPath, headerFileName);
    var cpp := FillCppTemplate(req.widgetName, req.widgetSuffix, headerFileName);
    FilledHeaderUpdates(classes, req.widgets, req.widgetName, req.widgetSuffix, req.widgetPath, headerFileName);
    FilledCppUpdates(req.widgetName, req.widgetSuffix, headerFileName, includeOrder);
    BothUpdatesSaved(classes, req.widgets, headerFilePath, header, cppFilePath, cpp, includeOrder, headerSaved);
  }

  /** When both updates succeed the header is saved, and the cpp too if the header save succeeds. */
  lemma BothUpdatesSaved(classes: seq<ClassInfo>, widgets: seq<Widget>, headerPath: string, headerContents: string,
                         cppPath: string, cppContents: string, includeOrder: seq<string>, headerSaved: bool)
    requires ValidArena(classes) && WidgetsIn(classes, widgets)
    requires HeaderUpdate(classes, widgets, headerContents) != [] && CppUpdate(cppContents, includeOrder) != []
    ensures |UpdateWrites(classes, widgets, headerPath, headerContents, cppPath, Some(cppContents), includeOrder, headerSaved)| ==
      if headerSaved then 2 else 1
  {
  }

  /** The filled header template always takes the properties section. */
  lemma FilledHeaderUpdates(classes: seq<ClassInfo>, widgets: seq<Widget>, widgetName: string, widgetSuffix: string,
                            widgetPath: string, headerFileName: string)
    requires ValidArena(classes) && WidgetsIn(classes, widgets)
    ensures HeaderUpdate(classes, widgets, FillHeaderTemplate(widgetName, widgetSuffix, widgetPath, headerFileName)) != []
  {
    FilledHeaderHasMarkers(widgetName, widgetSuffix, widgetPath, headerFileName);
    MarkedHeaderUpdates(classes, widgets, FillHeaderTemplate(widgetName, widgetSuffix, widgetPath, headerFileName));
  }

  /** A header holding both properties markers takes the properties section. */
  lemma MarkedHeaderUpdates(classes: seq<ClassInfo>, widgets: seq<Widget>, headerContents: string)
    requires ValidArena(classes) && WidgetsIn(classes, widgets)
    requires Find(headerContents, PropertiesSectionStartMarker) >= 0 && Find(headerContents, PropertiesSectionEndMarker) >= 0
    ensures HeaderUpdate(classes, widgets, headerContents) != []
  {
  }

  /** The filled cpp template always takes the includes section. */
  lemma FilledCppUpdates(widgetName: string, widgetSuffix: string, headerFileName: string, includeOrder: seq<string>)
    ensures CppUpdate(FillCppTemplate(widgetName, widgetSuffix, headerFileName), includeOrder) != []
  {
    FilledCppHasMarkers(widgetName, widgetSuffix, headerFileName);
    MarkedCppUpdates(FillCppTemplate(widgetName, widgetSuffix, headerFileName), includeOrder);
  }

  /** A cpp file holding both includes markers takes the includes section. */
  lemma MarkedCppUpdates(cppContents: string, includeOrder: seq<string>)
    requires Find(cppContents, IncludeSectionStartMarker) >= 0 && Find(cppContents, IncludeSectionEndMarker) >= 0
    ensures CppUpdate(cppContents, includeOrder) != []
  {
  }

  /** The header template with the callback's four replacements made, in its order. */
  method FillHeader(widgetName: string, widgetSuffix: string, widgetPath: string, headerFileName: string) returns (headerFileStr: string)
    ensures headerFileStr == FillHeaderTemplate(widgetName, widgetSuffix, widgetPath, headerFileName)
  {
    headerFileStr := HeaderFileTemplate;
    headerFileStr := ReplaceAll(headerFileStr, WidgetNameMarker, widgetName);
    headerFileStr := ReplaceAll(headerFileStr, WidgetSuffixMarker, widgetSuffix);
    headerFileStr := ReplaceAll(headerFileStr, WidgetPathMarker, widgetPath);
    headerFileStr := ReplaceAll(headerFileStr, HeaderFileNameMarker, headerFileName);
  }

  /** The cpp template with the callback's three replacements made, in its order. */
  method FillCpp(widgetName: string, widgetSuffix: string, headerFileName: string) returns (cppFileStr: string)
    ensures cppFileStr == FillCppTemplate(widgetName, widgetSuffix, headerFileName)
  {
    cppFileStr := CppFileTemplate;
    cppFileStr := ReplaceAll(cppFileStr, WidgetNameMarker, widgetName);
    cppFileStr := ReplaceAll(cppFileStr, WidgetSuffixMarker, widgetSuffix);
    cppFileStr := ReplaceAll(cppFileStr, HeaderFileNameMarker, headerFileName);
  }

  /**
   * The source map the callback saves: a fresh map loaded from what reading
   * the map file gives, then given the blueprint's two files, which it
   * records only when both lie under the game source directory.
   */
  method RecordCreatedFiles(blueprintPath: string, headerFilePath: string, cppFilePath: string,
                            gameSourceDir: string, projectDir: string, stored: SourceMap.StoredMap)
    returns (entries: map<string, SourceMap.SourceModel>)
    ensures var loaded := if stored.Parsed? then stored.entries else map[];
      var relativeHeader := MakeRelative(headerFilePath, gameSourceDir);
      var relativeCpp := MakeRelative(cppFilePath, gameSourceDir);
      entries == if relativeHeader.Some? && relativeCpp.Some?
                 then loaded[blueprintPath := SourceMap.SourceModel(relativeHeader.value, relativeCpp.value)]
                 else loaded
  {
    var sourceMap := new SourceMap.BlueprintSourceMap();
    sourceMap.LoadMapping(gameSourceDir, projectDir, stored);
    sourceMap.AddMapping(blueprintPath, headerFilePath, cppFilePath);
    entries := sourceMap.sourceMap;
  }

  /** The source map the callback saves once both files were saved, and None before that. */
  method RecordWhenSaved(bothSaved: bool, blueprintPath: string, headerFilePath: string, cppFilePath: string,
                         gameSourceDir: string, projectDir: string, stored: SourceMap.StoredMap)
    returns (mapping: Option<map<string, SourceMap.SourceModel>>)
    ensures mapping.Some? <==> bothSaved
    ensures var loaded := if stored.Parsed? then stored.entries else map[];
      var relativeHeader := MakeRelative(headerFilePath, gameSourceDir);
      var relativeCpp := MakeRelative(cppFilePath, gameSourceDir);
      mapping.Some? ==>
        mapping.value == if relativeHeader.Some? && relativeCpp.Some?
                         then loaded[blueprintPath := SourceMap.SourceModel(relativeHeader.value, relativeCpp.value)]
                         else loaded
  {
    mapping := None;
    if bothSaved {
      var entries := RecordCreatedFiles(blueprintPath, headerFilePath, cppFilePath, gameSourceDir, projectDir, stored);
      mapping := Some(entries);
    }
  }

  /** The names under which CreateFiles hands its two callbacks to the creation process. */
  const FilesCreatedCallback: nat := 1
  const ErrorOrCancelledCallback: nat := 2

  /** The table a freshly made lookup table holds after InitTable. */
  function InitialTable(manifest: Option<seq<LookupTable.ModuleModel>>): map<string, string>
  {
    if manifest.Some? then LookupTable.BuildTable(manifest.value) else map[]
  }

  /**
   * CodeGenerator's static state: the lazily created header lookup table.
   * `manifest` parameters stand for the Unreal Header Tool manifest as read
   * from disk (None when it cannot be loaded or parsed).
   */
  class CodeGenerator {
    var headerLookupTable: LookupTable.HeaderLookupTable?
    /** `_currentProcess`: made on first use and reused afterwards. */
    var currentProcess: FileCreation.FileCreationProcess?
    /** What the files-created callback last handed to the process captured. */
    var pendingRequest: Option<CreateRequest>

    constructor()
      ensures headerLookupTable == null && currentProcess == null && pendingRequest.None?
    {
      headerLookupTable := null;
      currentProcess := null;
      pendingRequest := None;
    }

    /** CodeGenerator::GetHeaderLookupTable: made and filled on first use, reused afterwards. */
    method GetHeaderLookupTable(manifest: Option<seq<LookupTable.ModuleModel>>) returns (table: LookupTable.HeaderLookupTable)
      modifies this`headerLookupTable
      ensures headerLookupTable == table
      ensures old(headerLookupTable) != null ==>
        table == old(headerLookupTable) && table.lookupTable == old(headerLookupTable.lookupTable)
      ensures old(headerLookupTable) == null ==> fresh(table) && table.lookupTable == InitialTable(manifest)
    {
      if headerLookupTable == null {
        var newTable := new LookupTable.HeaderLookupTable();
        newTable.InitTable(manifest);
        headerLookupTable := newTable;
      }
      table := headerLookupTable;
    }

    /**
     * CodeGenerator::UpdateCppFile: keeps the cpp file up to the includes
     * start marker, writes the banner and one include line per distinct
     * include path of the named widgets, then the end marker and the rest;
     * "" when a marker is missing, in which case the table is not touched.
     * The set is walked in an order the model does not fix; `includeOrder`
     * records the one taken.
     */
    method UpdateCppFile(classes: seq<ClassInfo>, namedWidgets: seq<Widget>, cppContents: string,
                         manifest: Option<seq<LookupTable.ModuleModel>>)
      returns (result: string, ghost includeOrder: seq<string>)
      requires ValidArena(classes) && WidgetsIn(classes, namedWidgets)
      modifies this`headerLookupTable
      ensures result == [] ==> headerLookupTable == old(headerLookupTable)
      ensures old(headerLookupTable) != null ==>
        headerLookupTable == old(headerLookupTable) && headerLookupTable.lookupTable == old(headerLookupTable.lookupTable)
      ensures Find(cppContents, IncludeSectionStartMarker) >= 0 && Find(cppContents, IncludeSectionEndMarker) >= 0 ==>
        headerLookupTable != null &&
        (old(headerLookupTable) == null ==> fresh(headerLookupTable) && headerLookupTable.lookupTable == InitialTable(manifest)) &&
        Distinct(includeOrder) &&
        Elements(includeOrder) == Elements(IncludePaths(classes, headerLookupTable.lookupTable, namedWidgets))
      ensures result == Splice(cppContents, IncludeSectionStartMarker, IncludeSectionEndMarker, CppSection(includeOrder))
    {
      var startMarker, endMarker, banner := IncludeSectionStartMarker, IncludeSectionEndMarker, DoNotModifyComment;
      includeOrder := [];
      var includesSectionStartIndex := Find(cppContents, startMarker);
      if includesSectionStartIndex < 0 {
        return [], includeOrder;
      }
      var includesSectionEndIndex := Find(cppContents, endMarker);
      if includesSectionEndIndex < 0 {
        return [], includeOrder;
      }

      result := cppContents[..includesSectionStartIndex + |startMarker|];
      result := result + "\n";
      result := result + banner + "\n";

      var lookupTable := GetHeaderLookupTable(manifest);
      var includes := CollectIncludePaths(classes, namedWidgets, lookupTable);
      result, includeOrder := AppendIncludeLines(includes, result);
      result := result + endMarker + "\n";
      result := result + RightChop(cppContents, includesSectionEndIndex + |endMarker| + 1);
      SpliceOfPieces(cppContents, startMarker, endMarker, banner, IncludeLines(includeOrder),
                     includesSectionStartIndex, includesSectionEndIndex, result);
    }
    /**
     * CodeGenerator::CreateFiles: makes the creation process on first use,
     * captures the request for the files-created callback, and starts the
     * process with the class name `widgetName + widgetSuffix`, which the
     * dialog is opened with.
     */
    method CreateFiles(blueprintPath: string, widgetPath: string, widgetName: string, widgetSuffix: string, widgets: seq<Widget>)
      returns (dialogPrefix: string, dialogName: string)
      modifies this, currentProcess
      ensures headerLookupTable == old(headerLookupTable)
      ensures currentProcess != null
      ensures old(currentProcess) != null ==> currentProcess == old(currentProcess) && currentProcess.log == old(currentProcess.log)
      ensures old(currentProcess) == null ==> fresh(currentProcess) && currentProcess.log == []
      ensures currentProcess.onFilesCreated == FilesCreatedCallback
      ensures currentProcess.onErrorOrCancelled == ErrorOrCancelledCallback
      ensures !currentProcess.isWaitingForCompile
      ensures old(currentProcess) == null || old(currentProcess.Valid()) ==>
        currentProcess.Valid() && !currentProcess.patchingPending &&
        currentProcess.pendingHeaderPath == [] && currentProcess.pendingCppPath == []
      ensures pendingRequest == Some(CreateRequest(blueprintPath, widgetPath, widgetName, widgetSuffix, widgets, widgetName + widgetSuffix))
      ensures dialogPrefix + dialogName == widgetName + widgetSuffix
    {
      if currentProcess == null {
        currentProcess := new FileCreation.FileCreationProcess();
      }
      var className := widgetName + widgetSuffix;
      pendingRequest := Some(CreateRequest(blueprintPath, widgetPath, widgetName, widgetSuffix, widgets, className));
      dialogPrefix, dialogName := currentProcess.Start(className, FilesCreatedCallback, ErrorOrCancelledCallback);
    }

    /**
     * The steps UpdateFiles and the files-created callback share once the
     * header's contents are at hand: update the header; then, if that
     * succeeded and the cpp's contents are available, update the cpp; then
     * save the header and, if that succeeded, the cpp.
     */
    method UpdateAndSave(classes: seq<ClassInfo>, widgets: seq<Widget>, headerPath: string, headerContents: string,
                         cppPath: string, cppContents: Option<string>, headerSaved: bool,
                         manifest: Option<seq<LookupTable.ModuleModel>>)
      returns (writes: seq<FileWrite>, updated: bool, cppAttempted: bool, ghost includeOrder: seq<string>)
      requires ValidArena(classes) && WidgetsIn(classes, widgets)
      modifies this`headerLookupTable
      ensures old(headerLookupTable) != null ==>
        headerLookupTable == old(headerLookupTable) && headerLookupTable.lookupTable == old(headerLookupTable.lookupTable)
      ensures old(headerLookupTable) == null && headerLookupTable != null ==>
        fresh(headerLookupTable) && headerLookupTable.lookupTable == InitialTable(manifest)
      ensures writes == UpdateWrites(classes, widgets, headerPath, headerContents, cppPath, cppContents, includeOrder, headerSaved)
      ensures updated <==>
        HeaderUpdate(classes, widgets, headerContents) != [] && cppContents.Some? && CppUpdate(cppContents.value, includeOrder) != []
      ensures writes != [] <==> updated
      ensures cppAttempted <==> updated && headerSaved
      ensures HeaderUpdate(classes, widgets, headerContents) == [] || cppContents.None? ==> headerLookupTable == old(headerLookupTable)
      ensures WidgetsIn(classes, NamedWidgets(classes, widgets))
      ensures updated ==>
        (headerLookupTable != null && Distinct(includeOrder) &&
         Elements(includeOrder) == Elements(IncludePaths(classes, headerLookupTable.lookupTable, NamedWidgets(classes, widgets))))
    {
      NamedWidgetsIn(classes, widgets);
      var namedWidgets := GetNamedWidgets(classes, widgets);
      writes, updated, cppAttempted, includeOrder := [], false, false, [];

      var updatedHeaderFileContents := UpdateHeaderFile(classes, namedWidgets, headerContents);
      if updatedHeaderFileContents == [] {
        return;
      }

      if cppContents.None? {
        return;
      }
      var updatedCppFileContents;
      updatedCppFileContents, includeOrder := UpdateCppFile(classes, namedWidgets, cppContents.value, manifest);
      if updatedCppFileContents == [] {
        return;
      }

      updated := true;
      writes := [FileWrite(headerPath, updatedHeaderFileContents)];
      if !headerSaved {
        return;
      }
      writes := writes + [FileWrite(cppPath, updatedCppFileContents)];
      cppAttempted := true;
    }

    /** The files-created callback up to the saves: both templates filled, then updated and saved as UpdateFiles does. */
    method CreateAndSave(classes: seq<ClassInfo>, req: CreateRequest, headerFilePath: string, cppFilePath: string,
                         headerSaved: bool, manifest: Option<seq<LookupTable.ModuleModel>>)
      returns (writes: seq<FileWrite>, cppAttempted: bool, ghost includeOrder: seq<string>)
      requires ValidArena(classes) && WidgetsIn(classes, req.widgets)
      modifies this`headerLookupTable
      ensures old(headerLookupTable) != null ==>
        headerLookupTable == old(headerLookupTable) && headerLookupTable.lookupTable == old(headerLookupTable.lookupTable)
      ensures old(headerLookupTable) == null && headerLookupTable != null ==>
        fresh(headerLookupTable) && headerLookupTable.lookupTable == InitialTable(manifest)
      ensures WidgetsIn(classes, NamedWidgets(classes, req.widgets))
      ensures headerLookupTable != null && Distinct(includeOrder)
      ensures Elements(includeOrder) == Elements(IncludePaths(classes, headerLookupTable.lookupTable, NamedWidgets(classes, req.widgets)))
      ensures writes == CreatedWrites(classes, req, headerFilePath, cppFilePath, includeOrder, headerSaved)
      ensures cppAttempted <==> headerSaved
    {
      var headerFileName := BaseFilename(headerFilePath);
      var headerFileStr := FillHeader(req.widgetName, req.widgetSuffix, req.widgetPath, headerFileName);
      var cppFileStr := FillCpp(req.widgetName, req.widgetSuffix, headerFileName);
      FilledHeaderUpdates(classes, req.widgets, req.widgetName, req.widgetSuffix, req.widgetPath, headerFileName);
      var updated;
      writes, updated, cppAttempted, includeOrder := UpdateAndSave(classes, req.widgets, headerFilePath, headerFileStr, cppFilePath,
                                                                   Some(cppFileStr), headerSaved, manifest);
      FilledCppUpdates(req.widgetName, req.widgetSuffix, headerFileName, includeOrder);
      assert HeaderUpdate(classes, req.widgets, headerFileStr) != [];
      assert CppUpdate(cppFileStr, includeOrder) != [];
      CreatedWritesOfFilled(classes, req, headerFilePath, cppFilePath, includeOrder, headerSaved, headerFileStr, cppFileStr);
    }

    /**
     * The files-created callback of CreateFiles, for the captured request:
     * fills both templates (the header file name is the header path's base
     * name), regenerates both sections, saves the header and then the cpp,
     * and only when both saves succeed records the blueprint's two files in
     * a freshly loaded source map. `headerSaved` and `cppSaved` are the
     * outcomes of the saves, `stored` what reading the map file gives, and
     * `mapping` the map saved back, None when none is.
     */
    method OnFilesCreated(classes: seq<ClassInfo>, headerFilePath: string, cppFilePath: string,
                          manifest: Option<seq<LookupTable.ModuleModel>>, headerSaved: bool, cppSaved: bool,
                          gameSourceDir: string, projectDir: string, stored: SourceMap.StoredMap)
      returns (writes: seq<FileWrite>, mapping: Option<map<string, SourceMap.SourceModel>>, ghost includeOrder: seq<string>)
      requires pendingRequest.Some? && ValidArena(classes) && WidgetsIn(classes, pendingRequest.value.widgets)
      modifies this`headerLookupTable
      ensures old(headerLookupTable) != null ==>
        headerLookupTable == old(headerLookupTable) && headerLookupTable.lookupTable == old(headerLookupTable.lookupTable)
      ensures old(headerLookupTable) == null && headerLookupTable != null ==>
        fresh(headerLookupTable) && headerLookupTable.lookupTable == InitialTable(manifest)
      ensures WidgetsIn(classes, NamedWidgets(classes, old(pendingRequest.value.widgets)))
      ensures headerLookupTable != null && Distinct(includeOrder)
      ensures Elements(includeOrder) == Elements(IncludePaths(classes, headerLookupTable.lookupTable, NamedWidgets(classes, old(pendingRequest.value.widgets))))
      ensures mapping.Some? <==> headerSaved && cppSaved
      ensures var entries := if stored.Parsed? then stored.entries else map[];
        var relativeHeader := MakeRelative(headerFilePath, gameSourceDir);
        var relativeCpp := MakeRelative(cppFilePath, gameSourceDir);
        mapping.Some? ==>
          mapping.value == if relativeHeader.Some? && relativeCpp.Some?
                           then entries[old(pendingRequest.value.blueprintPath) := SourceMap.SourceModel(relativeHeader.value, relativeCpp.value)]
                           else entries
      ensures writes == CreatedWrites(classes, old(pendingRequest.value), headerFilePath, cppFilePath, includeOrder, headerSaved)
    {
      var req := pendingRequest.value;
      var cppAttempted;
      writes, cppAttempted, includeOrder := CreateAndSave(classes, req, headerFilePath, cppFilePath, headerSaved, manifest);
      mapping := RecordWhenSaved(cppAttempted && cppSaved, req.blueprintPath, headerFilePath, cppFilePath,
                                 gameSourceDir, projectDir, stored);
    }

    /**
     * CodeGenerator::UpdateFiles: regenerates both sections of an existing
     * pair of files. `headerLoad` and `cppLoad` are what loading them gives
     * (None when loading fails) and `headerSaved` whether the header save
     * succeeds. Nothing happens when the header cannot be loaded; the cpp
     * is needed, and the lookup table touched, only once the header has
     * been updated.
     */
    method UpdateFiles(classes: seq<ClassInfo>, widgets: seq<Widget>, headerPath: string, cppPath: string,
                       headerLoad: Option<string>, cppLoad: Option<string>, headerSaved: bool,
                       manifest: Option<seq<LookupTable.ModuleModel>>)
      returns (writes: seq<FileWrite>, ghost includeOrder: seq<string>)
      requires ValidArena(classes) && WidgetsIn(classes, widgets)
      modifies this`headerLookupTable
      ensures old(headerLookupTable) != null ==>
        headerLookupTable == old(headerLookupTable) && headerLookupTable.lookupTable == old(headerLookupTable.lookupTable)
      ensures old(headerLookupTable) == null && headerLookupTable != null ==>
        fresh(headerLookupTable) && headerLookupTable.lookupTable == InitialTable(manifest)
      ensures headerLoad.None? ==> writes == [] && headerLookupTable == old(headerLookupTable)
      ensures headerLoad.Some? ==>
        writes == UpdateWrites(classes, widgets, headerPath, headerLoad.value, cppPath, cppLoad, includeOrder, headerSaved) &&
        (HeaderUpdate(classes, widgets, headerLoad.value) == [] || cppLoad.None? ==> headerLookupTable == old(headerLookupTable))
      ensures WidgetsIn(classes, NamedWidgets(classes, widgets))
      ensures writes != [] ==>
        (headerLookupTable != null && Distinct(includeOrder) &&
         Elements(includeOrder) == Elements(IncludePaths(classes, headerLookupTable.lookupTable, NamedWidgets(classes, widgets))))
    {
      NamedWidgetsIn(classes, widgets);
      if headerLoad.None? {
        return [], [];
      }
      var updated, cppAttempted;
      writes, updated, cppAttempted, includeOrder := UpdateAndSave(classes, widgets, headerPath, headerLoad.value, cppPath, cppLoad, headerSaved, manifest);
    }
  }
}
