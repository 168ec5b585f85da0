/**
 * UUmgControllerGeneratorPluginBPLibrary: the blueprint-callable entry
 * point. It turns a widget blueprint into the request CodeGenerator's
 * CreateFiles works on: the widgets of its tree, a controller name without
 * the "WBP_" prefix, the suffix "Controller" and the blueprint's content
 * path without the object name after the last dot.
 */
module BPLibrary {
  import opened Strings
  import opened Widgets
  import Generator

  /**
   * The object passed to CreateUmgController: a widget blueprint (its
   * object name, its path name and its widget tree in the order the tree
   * visits it) or some other object, for which the cast fails.
   */
  datatype BlueprintObject =
    | WidgetBlueprint(name: string, pathName: string, widgetTree: seq<Widget>)
    | OtherObject

  const WidgetBlueprintPrefix: string := "WBP_"
  const ControllerSuffix: string := "Controller"

  /** The blueprint's name, less a leading "WBP_". */
  function ControllerName(blueprintName: string): (r: string)
    ensures StartsWith(blueprintName, WidgetBlueprintPrefix) ==> WidgetBlueprintPrefix + r == blueprintName
    ensures !StartsWith(blueprintName, WidgetBlueprintPrefix) ==> r == blueprintName
  {
    DropPrefix(blueprintName, WidgetBlueprintPrefix)
  }

  /**
   * The content path: the path name cut before its last dot, or the whole
   * path name when it has none.
   */
  function ContentPath(pathName: string): (r: string)
    ensures '.' !in pathName ==> r == pathName
    ensures '.' in pathName ==>
      |r| < |pathName| && r == pathName[..|r|] && pathName[|r|] == '.' && '.' !in pathName[|r| + 1..]
  {
    var dotIndex := FindLastChar(pathName, '.');
    if dotIndex >= 0 then pathName[..dotIndex] else pathName
  }

  /**
   * An object path `package.object` whose object name has no dot gives
   * back its package path.
   */
  lemma ContentPathOfObjectPath(package: string, objectName: string)
    requires '.' !in objectName
    ensures ContentPath(package + "." + objectName) == package
  {
    var p := package + "." + objectName;
    assert p[|package|] == '.';
    assert p[|package| + 1..] == objectName;
    assert p[..|package|] == package;
  }

  /**
   * The ForEachWidget visit of the tree: every widget is added to the
   * array, in the order the tree visits them.
   */
  method CollectWidgets(widgetTree: seq<Widget>) returns (widgets: seq<Widget>)
    ensures widgets == widgetTree
  {
    widgets := [];
    for i := 0 to |widgetTree|
      invariant widgets == widgetTree[..i]
    {
      widgets := widgets + [widgetTree[i]];
    }
  }

  /**
   * UUmgControllerGeneratorPluginBPLibrary::CreateUmgController: nothing
   * happens for an object that is not a widget blueprint; otherwise the
   * generator is asked to create the files of the controller for the
   * blueprint's widgets. `headerPath` and `cppPath` are handed on and not
   * used.
   */
  method CreateUmgController(generator: Generator.CodeGenerator, inputBlueprint: BlueprintObject,
                             headerPath: string, cppPath: string)
    modifies generator, generator.currentProcess
    ensures inputBlueprint.OtherObject? ==> unchanged(generator)
    ensures inputBlueprint.OtherObject? && generator.currentProcess != null ==> unchanged(generator.currentProcess)
    ensures inputBlueprint.WidgetBlueprint? ==>
      var name := ControllerName(inputBlueprint.name);
      generator.pendingRequest ==
        Some(Generator.CreateRequest(inputBlueprint.pathName, ContentPath(inputBlueprint.pathName), name,
                                     ControllerSuffix, inputBlueprint.widgetTree, name + ControllerSuffix)) &&
      generator.currentProcess != null &&
      generator.currentProcess.onFilesCreated == Generator.FilesCreatedCallback &&
      generator.currentProcess.onErrorOrCancelled == Generator.ErrorOrCancelledCallback
    ensures generator.headerLookupTable == old(generator.headerLookupTable)
    ensures inputBlueprint.WidgetBlueprint? && old(generator.currentProcess) != null ==>
      generator.currentProcess == old(generator.currentProcess) &&
      generator.currentProcess.log == old(generator.currentProcess.log)
    ensures inputBlueprint.WidgetBlueprint? && old(generator.currentProcess) == null ==>
      fresh(generator.currentProcess) && generator.currentProcess.log == []
    ensures inputBlueprint.WidgetBlueprint? && (old(generator.currentProcess) == null || old(generator.currentProcess.Valid())) ==>
      generator.currentProcess.Valid() && !generator.currentProcess.isWaitingForCompile &&
      !generator.currentProcess.patchingPending &&
      generator.currentProcess.pendingHeaderPath == [] && generator.currentProcess.pendingCppPath == []
  {
    if inputBlueprint.OtherObject? {
      return;
    }
    var widgets := CollectWidgets(inputBlueprint.widgetTree);
    var name := ControllerName(inputBlueprint.name);
    var contentPath := ContentPath(inputBlueprint.pathName);
    var dialogPrefix, dialogName := generator.CreateFiles(inputBlueprint.pathName, contentPath, name, ControllerSuffix, widgets);
  }
}
