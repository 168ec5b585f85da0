/**
 * UBlueprintSourceMap: for each widget blueprint, named by its reference
 * path, the header and cpp file of the class generated for it, stored
 * relative to the project's source directory and persisted as JSON.
 *
 * The engine's side enters as values. `files` is the set of full paths that
 * exist; a recursive directory walk is the sequence of entries it visits
 * (None when the walk cannot start); the blueprints that still load are a
 * set of reference paths; reading the JSON file is a StoredMap outcome and
 * saving it a success flag.
 */
module SourceMap {
  import opened Strings
  import opened Paths

  /** FBlueprintSourceModel: both paths are "" until set. */
  datatype SourceModel = SourceModel(headerPath: string, cppPath: string)
  {
    /** FBlueprintSourceModel::IsValid: both halves are known. */
    predicate IsValid()
    {
      |headerPath| > 0 && |cppPath| > 0
    }
  }

  /** A default-constructed FBlueprintSourceModel. */
  const EmptyModel := SourceModel("", "")

  /** The default model is not valid, nor is any model missing a half. */
  lemma EmptyModelIsInvalid(m: SourceModel)
    ensures !EmptyModel.IsValid()
    ensures m.IsValid() <==> m.headerPath != [] && m.cppPath != []
  {
  }

  /** The name of the persisted map inside the source map directory. */
  const SourceMapFileName: string := "BlueprintSourceMap.json"

  // ---------------------------------------------------------------------
  // FFileMapBuilder

  /** One entry a recursive directory walk hands to the visitor. */
  datatype Visit = Visit(path: string, isDirectory: bool)

  /** `v` is a file whose clean file name is `name`. */
  predicate NamesFile(v: Visit, name: string)
  {
    !v.isDirectory && CleanFilename(v.path) == name
  }

  /** FFileMapBuilder::Visit's effect on the file map. */
  function VisitStep(fileMap: map<string, string>, v: Visit): map<string, string>
  {
    if !v.isDirectory && CleanFilename(v.path) !in fileMap then fileMap[CleanFilename(v.path) := v.path] else fileMap
  }

  /** The file map after visiting `visits` in order, starting from `fileMap`. */
  function FileMapAfter(fileMap: map<string, string>, visits: seq<Visit>): map<string, string>
  {
    if |visits| == 0 then fileMap
    else VisitStep(FileMapAfter(fileMap, visits[..|visits| - 1]), visits[|visits| - 1])
  }

  /** Visiting more entries never changes or removes a recorded file name. */
  lemma {:induction false} FileMapAfterKeeps(fileMap: map<string, string>, visits: seq<Visit>, name: string)
    requires name in fileMap
    ensures name in FileMapAfter(fileMap, visits) && FileMapAfter(fileMap, visits)[name] == fileMap[name]
  {
    if |visits| > 0 {
      FileMapAfterKeeps(fileMap, visits[..|visits| - 1], name);
    }
  }

  /** One visit records its file's clean name and nothing else. */
  lemma VisitStepKeys(fileMap: map<string, string>, v: Visit, name: string)
    ensures name in VisitStep(fileMap, v) <==> name in fileMap || NamesFile(v, name)
  {
  }

  /** Some file among `visits` has the clean file name `name`. */
  ghost predicate VisitsFile(visits: seq<Visit>, name: string)
  {
    exists i :: 0 <= i < |visits| && NamesFile(visits[i], name)
  }

  /** A file of that name is among `front + [last]` exactly when it is among `front` or is `last`. */
  lemma VisitsFileSplit(front: seq<Visit>, last: Visit, name: string)
    ensures VisitsFile(front + [last], name) <==> VisitsFile(front, name) || NamesFile(last, name)
  {
    var visits := front + [last];
    if VisitsFile(front, name) {
      var i :| 0 <= i < |front| && NamesFile(front[i], name);
      assert visits[i] == front[i];
    }
    if NamesFile(last, name) {
      assert visits[|front|] == last;
    }
    if VisitsFile(visits, name) && !NamesFile(last, name) {
      var i :| 0 <= i < |visits| && NamesFile(visits[i], name);
      assert visits[i] == front[i];
    }
  }

  /** The names recorded are exactly the clean file names of the files visited; directories add nothing. */
  lemma {:induction false} FileMapAfterKeys(fileMap: map<string, string>, visits: seq<Visit>, name: string)
    ensures name in FileMapAfter(fileMap, visits) <==> name in fileMap || VisitsFile(visits, name)
  {
    if |visits| > 0 {
      var n := |visits| - 1;
      FileMapAfterKeys(fileMap, visits[..n], name);
      VisitStepKeys(FileMapAfter(fileMap, visits[..n]), visits[n], name);
      VisitsFileSplit(visits[..n], visits[n], name);
      assert visits[..n] + [visits[n]] == visits;
    }
  }

  /** The first file visited with a given clean file name is the one recorded; later duplicates are ignored. */
  lemma {:induction false} FileMapFirstWins(fileMap: map<string, string>, visits: seq<Visit>, i: nat)
    requires i < |visits| && !visits[i].isDirectory && CleanFilename(visits[i].path) !in fileMap
    requires forall j :: 0 <= j < i ==> !NamesFile(visits[j], CleanFilename(visits[i].path))
    ensures var name := CleanFilename(visits[i].path);
      name in FileMapAfter(fileMap, visits) && FileMapAfter(fileMap, visits)[name] == visits[i].path
  {
    var n := |visits| - 1;
    var front := visits[..n];
    var name := CleanFilename(visits[i].path);
    if i == n {
      FileMapAfterKeys(fileMap, front, name);
    } else {
      assert front[i] == visits[i];
      FileMapFirstWins(fileMap, front, i);
    }
  }

  /** Every recorded path, from an empty start, is a file the walk visited. */
  lemma {:induction false} FileMapValuesVisited(visits: seq<Visit>, name: string)
    requires name in FileMapAfter(map[], visits)
    ensures exists i :: 0 <= i < |visits| && NamesFile(visits[i], name) && visits[i].path == FileMapAfter(map[], visits)[name]
  {
    var n := |visits| - 1;
    var front := visits[..n];
    if name in FileMapAfter(map[], front) {
      FileMapValuesVisited(front, name);
      var i :| 0 <= i < n && NamesFile(front[i], name) && front[i].path == FileMapAfter(map[], front)[name];
      assert visits[i] == front[i];
    } else {
      assert NamesFile(visits[n], name);
    }
  }

  /** FFileMapBuilder: the visitor that records, per clean file name, the first full path seen. */
  class FileMapBuilder {
    /** Clean file name (with extension) to full path. */
    var fileMap: map<string, string>

    constructor()
      ensures fileMap == map[]
    {
      fileMap := map[];
    }

    /** FFileMapBuilder::Visit: directories are skipped, a name already seen keeps its path; the walk always goes on. */
    method Visit(filenameOrDirectory: string, isDirectory: bool) returns (keepGoing: bool)
      modifies this
      ensures keepGoing
      ensures isDirectory || CleanFilename(filenameOrDirectory) in old(fileMap) ==> fileMap == old(fileMap)
      ensures !isDirectory && CleanFilename(filenameOrDirectory) !in old(fileMap) ==>
        fileMap == old(fileMap)[CleanFilename(filenameOrDirectory) := filenameOrDirectory]
    {
      if !isDirectory {
        var name := CleanFilename(filenameOrDirectory);
        if name !in fileMap {
          fileMap := fileMap[name := filenameOrDirectory];
        }
      }
      keepGoing := true;
    }
  }

  /** The engine's recursive directory walk, handing each entry to the visitor in turn. */
  method IterateDirectory(visitor: FileMapBuilder, visits: seq<Visit>)
    modifies visitor
    ensures visitor.fileMap == FileMapAfter(old(visitor.fileMap), visits)
  {
    ghost var start := visitor.fileMap;
    for i := 0 to |visits|
      invariant visitor.fileMap == FileMapAfter(start, visits[..i])
    {
      var _ := visitor.Visit(visits[i].path, visits[i].isDirectory);
      assert visits[..i + 1][..i] == visits[..i];
    }
    assert visits[..|visits|] == visits;
  }

  // ---------------------------------------------------------------------
  // UpdateMappings, as functions on the map

  /** A widget blueprint as UpdateMappings sees it: its object name and its reference path. */
  datatype Blueprint = Blueprint(name: string, pathName: string)

  /** What UpdateMappings does with one blueprint's entry. */
  datatype Repair = Keep | Skip | Replace(model: SourceModel)

  /**
   * One half of a rebuilt entry: kept as stored when its file exists, else
   * the relative path of the walked file with the expected name, else "".
   * None when that file lies outside the source directory.
   */
  function ResolvedHalf(onDisk: bool, stored: string, fileMap: map<string, string>, expectedName: string, root: string): Option<string>
  {
    if onDisk then Some(stored)
    else if expectedName in fileMap then MakeRelative(fileMap[expectedName], root)
    else Some("")
  }

  /** The header (or cpp) half of the entry for `key`, joined to `root`, is an existing file. */
  predicate HalfExists(m: map<string, SourceModel>, key: string, root: string, files: set<string>, header: bool)
  {
    key in m && Combine(root, if header then m[key].headerPath else m[key].cppPath) in files
  }

  /** The file name the generated class of a blueprint has: its name without "WBP_", then the suffix. */
  function ExpectedClassName(b: Blueprint, nameSuffix: string): string
  {
    DropPrefix(b.name, "WBP_") + nameSuffix
  }

  /** The decision UpdateMappings takes for blueprint `b` on the map `m`. */
  function RepairFor(m: map<string, SourceModel>, root: string, files: set<string>, fileMap: map<string, string>,
                     b: Blueprint, nameSuffix: string): Repair
  {
    var headerExists := HalfExists(m, b.pathName, root, files, true);
    var cppExists := HalfExists(m, b.pathName, root, files, false);
    if headerExists && cppExists then Keep
    else
      var name := ExpectedClassName(b, nameSuffix);
      var header := ResolvedHalf(headerExists, if headerExists then m[b.pathName].headerPath else "", fileMap, name + ".h", root);
      var cpp := ResolvedHalf(cppExists, if cppExists then m[b.pathName].cppPath else "", fileMap, name + ".cpp", root);
      if header.None? || cpp.None? then Skip
      else Replace(SourceModel(header.value, cpp.value))
  }

  /** The decision is to replace the entry by `model` when its halves are what ResolvedHalf gives. */
  lemma RepairReplaces(m: map<string, SourceModel>, root: string, files: set<string>, fileMap: map<string, string>,
                       b: Blueprint, nameSuffix: string, model: SourceModel)
    requires var headerExists, cppExists := HalfExists(m, b.pathName, root, files, true), HalfExists(m, b.pathName, root, files, false);
      var name := ExpectedClassName(b, nameSuffix);
      !(headerExists && cppExists) &&
      ResolvedHalf(headerExists, if headerExists then m[b.pathName].headerPath else "", fileMap, name + ".h", root) == Some(model.headerPath) &&
      ResolvedHalf(cppExists, if cppExists then m[b.pathName].cppPath else "", fileMap, name + ".cpp", root) == Some(model.cppPath)
    ensures RepairFor(m, root, files, fileMap, b, nameSuffix) == Replace(model)
  {
  }

  /** The map after one decision about `key`. */
  function ApplyRepair(m: map<string, SourceModel>, key: string, r: Repair): map<string, SourceModel>
  {
    if r.Replace? then m[key := r.model] else m
  }

  /** The map after the repair loop has handled `blueprints` in order. */
  function RepairedMap(m: map<string, SourceModel>, root: string, files: set<string>, fileMap: map<string, string>,
                       blueprints: seq<Blueprint>, nameSuffix: string): map<string, SourceModel>
  {
    if |blueprints| == 0 then m
    else
      var prev := RepairedMap(m, root, files, fileMap, blueprints[..|blueprints| - 1], nameSuffix);
      var b := blueprints[|blueprints| - 1];
      ApplyRepair(prev, b.pathName, RepairFor(prev, root, files, fileMap, b, nameSuffix))
  }

  /** The map without the entries of blueprints that no longer exist. */
  function Pruned(m: map<string, SourceModel>, existingBlueprints: set<string>): map<string, SourceModel>
  {
    map k | k in m && k in existingBlueprints :: m[k]
  }

  /** An entry whose header and cpp both still exist is left as it is. */
  lemma RepairKeepsLiveEntry(m: map<string, SourceModel>, root: string, files: set<string>, fileMap: map<string, string>,
                             b: Blueprint, nameSuffix: string)
    requires b.pathName in m
    requires Combine(root, m[b.pathName].headerPath) in files && Combine(root, m[b.pathName].cppPath) in files
    ensures ApplyRepair(m, b.pathName, RepairFor(m, root, files, fileMap, b, nameSuffix)) == m
  {
  }

  /**
   * In a rebuilt entry, a half whose file still exists is kept verbatim, and
   * a missing half names, once joined to the source directory, the file the
   * walk found under the expected name, or is "" when there is none.
   */
  lemma RebuiltEntryHalves(m: map<string, SourceModel>, root: string, files: set<string>, fileMap: map<string, string>,
                           b: Blueprint, nameSuffix: string)
    requires RepairFor(m, root, files, fileMap, b, nameSuffix).Replace?
    ensures var model, name := RepairFor(m, root, files, fileMap, b, nameSuffix).model, ExpectedClassName(b, nameSuffix);
      (HalfExists(m, b.pathName, root, files, true) ==> model.headerPath == m[b.pathName].headerPath) &&
      (!HalfExists(m, b.pathName, root, files, true) && name + ".h" in fileMap ==>
        Combine(root, model.headerPath) == fileMap[name + ".h"]) &&
      (!HalfExists(m, b.pathName, root, files, true) && name + ".h" !in fileMap ==> model.headerPath == []) &&
      (HalfExists(m, b.pathName, root, files, false) ==> model.cppPath == m[b.pathName].cppPath) &&
      (!HalfExists(m, b.pathName, root, files, false) && name + ".cpp" in fileMap ==>
        Combine(root, model.cppPath) == fileMap[name + ".cpp"]) &&
      (!HalfExists(m, b.pathName, root, files, false) && name + ".cpp" !in fileMap ==> model.cppPath == [])
  {
    var name := ExpectedClassName(b, nameSuffix);
    if !HalfExists(m, b.pathName, root, files, true) && name + ".h" in fileMap {
      RelativeRoundTrip(fileMap[name + ".h"], root);
    }
    if !HalfExists(m, b.pathName, root, files, false) && name + ".cpp" in fileMap {
      RelativeRoundTrip(fileMap[name + ".cpp"], root);
    }
  }

  /** A file found by the walk outside the source directory leaves the blueprint's entry untouched. */
  lemma UnrelatableFileSkips(m: map<string, SourceModel>, root: string, files: set<string>, fileMap: map<string, string>,
                             b: Blueprint, nameSuffix: string)
    requires var name := ExpectedClassName(b, nameSuffix);
      (!HalfExists(m, b.pathName, root, files, true) && name + ".h" in fileMap &&
       MakeRelative(fileMap[name + ".h"], root).None?) ||
      (!HalfExists(m, b.pathName, root, files, false) && name + ".cpp" in fileMap &&
       MakeRelative(fileMap[name + ".cpp"], root).None?)
    ensures ApplyRepair(m, b.pathName, RepairFor(m, root, files, fileMap, b, nameSuffix)) == m
  {
  }

  /** The repair loop touches no entry but those of the blueprints it is given. */
  lemma {:induction false} RepairedMapOtherKeys(m: map<string, SourceModel>, root: string, files: set<string>,
                                                fileMap: map<string, string>, blueprints: seq<Blueprint>, nameSuffix: string, k: string)
    requires forall i :: 0 <= i < |blueprints| ==> blueprints[i].pathName != k
    ensures var r := RepairedMap(m, root, files, fileMap, blueprints, nameSuffix);
      (k in r <==> k in m) && (k in m ==> r[k] == m[k])
  {
    if |blueprints| > 0 {
      RepairedMapOtherKeys(m, root, files, fileMap, blueprints[..|blueprints| - 1], nameSuffix, k);
    }
  }

  /** The repair loop never drops an entry. */
  lemma {:induction false} RepairedMapKeepsKeys(m: map<string, SourceModel>, root: string, files: set<string>,
                                                fileMap: map<string, string>, blueprints: seq<Blueprint>, nameSuffix: string)
    ensures m.Keys <= RepairedMap(m, root, files, fileMap, blueprints, nameSuffix).Keys
  {
    if |blueprints| > 0 {
      RepairedMapKeepsKeys(m, root, files, fileMap, blueprints[..|blueprints| - 1], nameSuffix);
    }
  }

  /** After pruning, an entry remains exactly when it was there and its blueprint exists, with its value unchanged. */
  lemma PrunedEntries(m: map<string, SourceModel>, existingBlueprints: set<string>, k: string)
    ensures k in Pruned(m, existingBlueprints) <==> k in m && k in existingBlueprints
    ensures k in Pruned(m, existingBlueprints) ==> Pruned(m, existingBlueprints)[k] == m[k]
  {
  }

  /** Removing exactly the keys of blueprints that no longer exist is pruning. */
  lemma RemovalIsPruning(m: map<string, SourceModel>, existingBlueprints: set<string>, removed: set<string>)
    requires forall k :: k in removed <==> k in m && k !in existingBlueprints
    ensures m - removed == Pruned(m, existingBlueprints)
  {
  }

  /** The outcome of reading the persisted map file. */
  datatype StoredMap = NoFile | Unreadable | Corrupt | Parsed(entries: map<string, SourceModel>)

  // ---------------------------------------------------------------------
  // The map object

  class BlueprintSourceMap {
    var projectSourceDirectory: string
    var sourceMapDir: string
    /** FBlueprintSourceMapModel::BlueprintSourceMap: reference path to source files, one entry per blueprint. */
    var sourceMap: map<string, SourceModel>

    constructor()
      ensures projectSourceDirectory == [] && sourceMapDir == [] && sourceMap == map[]
    {
      projectSourceDirectory := [];
      sourceMapDir := [];
      sourceMap := map[];
    }

    /** UBlueprintSourceMap::GetFilePath: the fixed file name inside the source map directory. */
    function GetFilePath(): (r: string)
      reads this
      ensures CleanFilename(r) == SourceMapFileName
      ensures StartsWith(r, DirPrefix(sourceMapDir))
      ensures r == DirPrefix(sourceMapDir) + SourceMapFileName
    {
      CleanFilenameOfCombine(sourceMapDir, SourceMapFileName);
      CombineIsDirPrefix(sourceMapDir, SourceMapFileName);
      Combine(sourceMapDir, SourceMapFileName)
    }

    /**
     * UBlueprintSourceMap::LoadMapping, given what reading GetFilePath()
     * gives. A missing or unreadable file leaves the map as it was; the map
     * is emptied before the JSON is parsed.
     */
    method LoadMapping(projectSourceDir: string, mapDir: string, stored: StoredMap)
      modifies this
      ensures projectSourceDirectory == projectSourceDir && sourceMapDir == mapDir
      ensures stored.NoFile? || stored.Unreadable? ==> sourceMap == old(sourceMap)
      ensures stored.Corrupt? ==> sourceMap == map[]
      ensures stored.Parsed? ==> sourceMap == stored.entries
    {
      projectSourceDirectory := projectSourceDir;
      sourceMapDir := mapDir;
      if !stored.NoFile? {
        if stored.Unreadable? {
          return;
        }
        sourceMap := map[];
        if stored.Corrupt? {
          return;
        }
        sourceMap := stored.entries;
      }
    }

    /**
     * UBlueprintSourceMap::AddMapping: all or nothing. When both paths lie
     * under the source directory the blueprint's entry becomes the pair of
     * relative paths, replacing any earlier one, and reading it back as
     * absolute paths gives the two paths passed in.
     */
    method AddMapping(blueprintPath: string, fullHeaderPath: string, fullCppPath: string)
      modifies this
      ensures projectSourceDirectory == old(projectSourceDirectory) && sourceMapDir == old(sourceMapDir)
      ensures MakeRelative(fullHeaderPath, projectSourceDirectory).None? || MakeRelative(fullCppPath, projectSourceDirectory).None? ==>
        sourceMap == old(sourceMap)
      ensures MakeRelative(fullHeaderPath, projectSourceDirectory).Some? && MakeRelative(fullCppPath, projectSourceDirectory).Some? ==>
        sourceMap == old(sourceMap)[blueprintPath := SourceModel(MakeRelative(fullHeaderPath, projectSourceDirectory).value,
                                                                 MakeRelative(fullCppPath, projectSourceDirectory).value)] &&
        GetSourcePathsFor(blueprintPath, true) == SourceModel(fullHeaderPath, fullCppPath)
    {
      var relativeHeaderPath := MakeRelative(fullHeaderPath, projectSourceDirectory);
      if relativeHeaderPath.None? {
        return;
      }
      var relativeCppPath := MakeRelative(fullCppPath, projectSourceDirectory);
      if relativeCppPath.None? {
        return;
      }
      var model := SourceModel(relativeHeaderPath.value, relativeCppPath.value);
      if blueprintPath in sourceMap {
        sourceMap := sourceMap - {blueprintPath};
      }
      sourceMap := sourceMap[blueprintPath := model];
      RelativeRoundTrip(fullHeaderPath, projectSourceDirectory);
      RelativeRoundTrip(fullCppPath, projectSourceDirectory);
    }

    /**
     * UBlueprintSourceMap::GetSourcePathsFor: the empty, invalid model for a
     * blueprint without an entry; otherwise its entry, as stored or joined to
     * the source directory, from which relativising gives the entry back.
     */
    function GetSourcePathsFor(blueprintPath: string, absolutePaths: bool): (r: SourceModel)
      reads this
      ensures blueprintPath !in sourceMap ==> r == EmptyModel && !r.IsValid()
      ensures blueprintPath in sourceMap && !absolutePaths ==> r == sourceMap[blueprintPath]
      ensures blueprintPath in sourceMap && absolutePaths ==>
        MakeRelative(r.headerPath, projectSourceDirectory) == Some(sourceMap[blueprintPath].headerPath) &&
        MakeRelative(r.cppPath, projectSourceDirectory) == Some(sourceMap[blueprintPath].cppPath)
    {
      if blueprintPath in sourceMap then
        var stored := sourceMap[blueprintPath];
        if absolutePaths then
          CombineThenRelative(projectSourceDirectory, stored.headerPath);
          CombineThenRelative(projectSourceDirectory, stored.cppPath);
          SourceModel(Combine(projectSourceDirectory, stored.headerPath), Combine(projectSourceDirectory, stored.cppPath))
        else
          stored
      else
        EmptyModel
    }

    /**
     * UBlueprintSourceMap::UpdateMappings. When the source directory cannot
     * be walked nothing changes and the result is false. Otherwise each
     * blueprint's entry is repaired in turn against the file map of the walk,
     * the entries of blueprints that no longer exist are removed, and the
     * result is whether saving succeeded.
     */
    method UpdateMappings(filesToUpdate: seq<Blueprint>, nameSuffix: string, walk: Option<seq<Visit>>,
                          files: set<string>, existingBlueprints: set<string>, saveSucceeds: bool)
      returns (saved: bool)
      modifies this
      ensures projectSourceDirectory == old(projectSourceDirectory) && sourceMapDir == old(sourceMapDir)
      ensures walk.None? ==> !saved && sourceMap == old(sourceMap)
      ensures walk.Some? ==> saved == saveSucceeds
      ensures walk.Some? ==>
        sourceMap == Pruned(RepairedMap(old(sourceMap), projectSourceDirectory, files, FileMapAfter(map[], walk.value),
                                        filesToUpdate, nameSuffix), existingBlueprints)
    {
      if walk.None? {
        return false;
      }
      var mapBuilder := new FileMapBuilder();
      IterateDirectory(mapBuilder, walk.value);
      var fileMap := mapBuilder.fileMap;

      ghost var start := sourceMap;
      for i := 0 to |filesToUpdate|
        invariant projectSourceDirectory == old(projectSourceDirectory) && sourceMapDir == old(sourceMapDir)
        invariant sourceMap == RepairedMap(start, projectSourceDirectory, files, fileMap, filesToUpdate[..i], nameSuffix)
      {
        RepairEntry(filesToUpdate[i], nameSuffix, files, fileMap);
        assert filesToUpdate[..i + 1][..i] == filesToUpdate[..i];
      }
      assert filesToUpdate[..|filesToUpdate|] == filesToUpdate;

      RemoveMissingBlueprints(existingBlueprints);
      saved := saveSucceeds;
    }

    /** The body of the UpdateMappings loop for one blueprint; `continue` is an early return. */
    method RepairEntry(blueprint: Blueprint, nameSuffix: string, files: set<string>, fileMap: map<string, string>)
      modifies this
      ensures projectSourceDirectory == old(projectSourceDirectory) && sourceMapDir == old(sourceMapDir)
      ensures sourceMap == ApplyRepair(old(sourceMap), blueprint.pathName,
                                       RepairFor(old(sourceMap), projectSourceDirectory, files, fileMap, blueprint, nameSuffix))
    {
      var name := blueprint.name;
      var wbpPrefix := "WBP_";
      if StartsWith(name, wbpPrefix) {
        name := RightChop(name, |wbpPrefix|);
      }
      name := name + nameSuffix;
      assert name == ExpectedClassName(blueprint, nameSuffix);
      var expectedHeaderName := name + ".h";
      var expectedCppName := name + ".cpp";

      var pathName := blueprint.pathName;
      var cppExists := false;
      var headerExists := false;
      var newPaths := EmptyModel;
      if pathName in sourceMap {
        var sourcePaths := sourceMap[pathName];
        var fullHeaderPath := Combine(projectSourceDirectory, sourcePaths.headerPath);
        if fullHeaderPath in files {
          headerExists := true;
          newPaths := newPaths.(headerPath := sourcePaths.headerPath);
        }
        var fullCppPath := Combine(projectSourceDirectory, sourcePaths.cppPath);
        if fullCppPath in files {
          cppExists := true;
          newPaths := newPaths.(cppPath := sourcePaths.cppPath);
        }
      }
      ghost var root, m := projectSourceDirectory, sourceMap;
      ghost var storedHeader, storedCpp := newPaths.headerPath, newPaths.cppPath;
      assert headerExists == HalfExists(m, pathName, root, files, true);
      assert cppExists == HalfExists(m, pathName, root, files, false);
      assert storedHeader == if headerExists then m[pathName].headerPath else "";
      assert storedCpp == if cppExists then m[pathName].cppPath else "";

      if !headerExists || !cppExists {
        if !headerExists {
          if expectedHeaderName in fileMap {
            var newHeaderPath := MakeRelative(fileMap[expectedHeaderName], projectSourceDirectory);
            if newHeaderPath.None? {
              return;
            }
            newPaths := newPaths.(headerPath := newHeaderPath.value);
          }
        }
        if !cppExists {
          if expectedCppName in fileMap {
            var newCppPath := MakeRelative(fileMap[expectedCppName], projectSourceDirectory);
            if newCppPath.None? {
              return;
            }
            newPaths := newPaths.(cppPath := newCppPath.value);
          }
        }
        RepairReplaces(m, root, files, fileMap, blueprint, nameSuffix, newPaths);
        if pathName in sourceMap {
          sourceMap := sourceMap - {pathName};
        }
        sourceMap := sourceMap[pathName := newPaths];
        assert sourceMap == m[pathName := newPaths];
      }
    }

    /** The pruning at the end of UpdateMappings: collect the keys of blueprints that no longer exist, then remove them. */
    method RemoveMissingBlueprints(existingBlueprints: set<string>)
      modifies this
      ensures projectSourceDirectory == old(projectSourceDirectory) && sourceMapDir == old(sourceMapDir)
      ensures sourceMap == Pruned(old(sourceMap), existingBlueprints)
    {
      var keysToRemove := KeysToRemove(existingBlueprints);
      RemoveKeys(keysToRemove);
      RemovalIsPruning(old(sourceMap), existingBlueprints, Elements(keysToRemove));
    }

    /** The keys of the map whose blueprint no longer exists, each once. */
    method KeysToRemove(existingBlueprints: set<string>) returns (keysToRemove: seq<string>)
      ensures forall k :: k in keysToRemove <==> k in sourceMap && k !in existingBlueprints
    {
      keysToRemove := [];
      var unvisited := sourceMap.Keys;
      while unvisited != {}
        invariant unvisited <= sourceMap.Keys
        invariant forall k :: k in keysToRemove <==> k in sourceMap.Keys - unvisited && k !in existingBlueprints
        decreases |unvisited|
      {
        var key :| key in unvisited;
        if key !in existingBlueprints {
          keysToRemove := keysToRemove + [key];
        }
        unvisited := unvisited - {key};
      }
    }

    /** Removes each of `keys` from the map. */
    method RemoveKeys(keys: seq<string>)
      modifies this
      ensures projectSourceDirectory == old(projectSourceDirectory) && sourceMapDir == old(sourceMapDir)
      ensures sourceMap == old(sourceMap) - Elements(keys)
    {
      for i := 0 to |keys|
        invariant projectSourceDirectory == old(projectSourceDirectory) && sourceMapDir == old(sourceMapDir)
        invariant sourceMap == old(sourceMap) - Elements(keys[..i])
      {
        assert keys[..i + 1] == keys[..i] + [keys[i]];
        ElementsAppend(keys[..i], keys[i]);
        sourceMap := sourceMap - {keys[i]};
      }
      assert keys[..|keys|] == keys;
    }
  }
}
