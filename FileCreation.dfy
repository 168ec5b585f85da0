/**
 * UFileCreationProcess: asks the editor's add-to-project dialog for a new
 * native class, locates the header and cpp the dialog wrote, and reports
 * them to the caller, after the live coding compile when the editor compiles
 * new classes automatically.
 *
 * The two std::function callbacks are named by numbers, and each call made
 * to them is appended to `log`. The continuation `_onPatchingComplete` is
 * always the same lambda, so it is modelled by whether it is set. Which
 * files exist and whether new classes are compiled automatically are
 * parameters.
 */
module FileCreation {
  import opened Strings
  import opened Paths

  /** A call made to one of the caller's callbacks. */
  datatype Event =
    | FilesCreated(callback: nat, headerPath: string, cppPath: string)
    | ErrorOrCancelled(callback: nat, description: string)

  /** What OnFileAdded concludes about the files of the new class. */
  datatype Located = Found(headerPath: string, cppPath: string) | NotFound(description: string)

  /** `path` without one trailing '\' or '/'. */
  function WithoutTrailingSeparator(path: string): (r: string)
    ensures |path| > 0 && IsSeparator(path[|path| - 1]) ==> r == path[..|path| - 1]
    ensures (|path| == 0 || !IsSeparator(path[|path| - 1])) ==> r == path
  {
    if EndsWith(path, "\\") || EndsWith(path, "/") then path[..|path| - 1] else path
  }

  /** Where the cpp is looked for when it is not next to the header: the sibling "Private" folder. */
  function PrivateCppPath(className: string, classPath: string): string
  {
    var parentDir := GetPath(WithoutTrailingSeparator(classPath));
    Combine(Combine(parentDir, "Private"), className + ".cpp")
  }

  /**
   * The files of class `className` written to `classPath`: the header must
   * be there; the cpp is taken from beside it, else from the sibling Private
   * folder; otherwise the description names what is missing.
   */
  function LocateFiles(className: string, classPath: string, files: set<string>): (r: Located)
    ensures r.Found? <==>
      (classPath + className + ".h" in files &&
       (classPath + className + ".cpp" in files || PrivateCppPath(className, classPath) in files))
    ensures r.Found? ==> r.headerPath in files && r.cppPath in files && r.headerPath == classPath + className + ".h"
    ensures r.Found? ==>
      if classPath + className + ".cpp" in files then r.cppPath == classPath + className + ".cpp"
      else r.cppPath == PrivateCppPath(className, classPath)
  {
    var headerPath := classPath + className + ".h";
    var cppPath := classPath + className + ".cpp";
    if headerPath !in files then NotFound("Unable to find the newly created header at " + headerPath)
    else if cppPath in files then Found(headerPath, cppPath)
    else if PrivateCppPath(className, classPath) in files then Found(headerPath, PrivateCppPath(className, classPath))
    else NotFound("Unable to find the newly created cpp at " + cppPath)
  }

  /**
   * A class written to `<parent>/<folder>/` has its fallback cpp in
   * `<parent>/Private/`, whichever separator ends the class path.
   */
  lemma PrivateCppIsSibling(parent: string, folder: string, sep: char, className: string)
    requires |parent| > 0 && !IsSeparator(parent[|parent| - 1])
    requires forall j :: 0 <= j < |folder| ==> !IsSeparator(folder[j])
    requires IsSeparator(sep)
    ensures PrivateCppPath(className, parent + [sep] + folder + [sep]) == parent + "/Private/" + className + ".cpp"
  {
    var classPath := parent + [sep] + folder + [sep];
    assert WithoutTrailingSeparator(classPath) == (parent + [sep]) + folder;
    ParentOfChild(parent, sep, folder);
    PrivateFolderJoin(parent, className + ".cpp");
  }

  /** The directory of `<parent><sep><name>`, for a name without separators, is `parent`. */
  lemma ParentOfChild(parent: string, sep: char, name: string)
    requires IsSeparator(sep)
    requires forall j :: 0 <= j < |name| ==> !IsSeparator(name[j])
    ensures GetPath((parent + [sep]) + name) == parent
  {
    LastSeparatorOfAppend(parent + [sep], name);
    assert LastSeparator(parent + [sep]) == |parent|;
    assert ((parent + [sep]) + name)[..|parent|] == parent;
  }

  /** Joining "Private" and then a file name to a directory not ending in a separator inserts two '/'. */
  lemma PrivateFolderJoin(parent: string, fileName: string)
    requires |parent| > 0 && !IsSeparator(parent[|parent| - 1])
    ensures Combine(Combine(parent, "Private"), fileName) == parent + "/Private/" + fileName
  {
    var privateDir := parent + "/Private";
    assert Combine(parent, "Private") == privateDir;
    assert privateDir[|privateDir| - 1] == 'e';
  }

  /** The class' process state. */
  class FileCreationProcess {
    /** The callbacks Start was last given. */
    var onFilesCreated: nat
    var onErrorOrCancelled: nat
    var isWaitingForCompile: bool
    /** `_onPatchingComplete` is set. */
    var patchingPending: bool
    /** `_headerPath` and `_cppPath`: the files waiting for the compile. */
    var pendingHeaderPath: string
    var pendingCppPath: string
    /** The calls made to the callbacks, oldest first. */
    var log: seq<Event>

    /** A continuation is set exactly while a compile is awaited, and the stored paths are empty otherwise. */
    ghost predicate Valid()
      reads this
    {
      patchingPending == isWaitingForCompile &&
      (!isWaitingForCompile ==> pendingHeaderPath == [] && pendingCppPath == [])
    }

    constructor()
      ensures Valid() && !isWaitingForCompile && log == []
    {
      onFilesCreated := 0;
      onErrorOrCancelled := 0;
      isWaitingForCompile := false;
      patchingPending := false;
      pendingHeaderPath := [];
      pendingCppPath := [];
      log := [];
    }

    /**
     * UFileCreationProcess::Start: installs both callbacks, abandons an
     * awaited compile, and returns the prefix and name the dialog is opened
     * with, which together spell `defaultName`.
     */
    method Start(defaultName: string, filesCreatedCallback: nat, errorCallback: nat)
      returns (dialogPrefix: string, dialogName: string)
      modifies this
      ensures onFilesCreated == filesCreatedCallback && onErrorOrCancelled == errorCallback
      ensures old(isWaitingForCompile) ==>
        !isWaitingForCompile && !patchingPending && pendingHeaderPath == [] && pendingCppPath == []
      ensures !old(isWaitingForCompile) ==>
        !isWaitingForCompile && patchingPending == old(patchingPending) &&
        pendingHeaderPath == old(pendingHeaderPath) && pendingCppPath == old(pendingCppPath)
      ensures log == old(log)
      ensures old(Valid()) ==> Valid() && !patchingPending
      ensures dialogPrefix + dialogName == defaultName
      ensures |defaultName| > 1 ==> dialogPrefix == defaultName[..1]
      ensures |defaultName| <= 1 ==> dialogPrefix == []
    {
      onFilesCreated := filesCreatedCallback;
      onErrorOrCancelled := errorCallback;
      if isWaitingForCompile {
        isWaitingForCompile := false;
        pendingCppPath := [];
        pendingHeaderPath := [];
        patchingPending := false;
      }
      dialogPrefix := [];
      dialogName := defaultName;
      if |defaultName| > 1 {
        dialogPrefix := defaultName[..1];
        dialogName := defaultName[1..];
      }
    }

    /**
     * UFileCreationProcess::OnFileAdded as written. When a file is missing
     * the error callback is called once and nothing else changes. With
     * automatic compilation the located paths are stored and the
     * continuation set. Without it the files-created callback is called at
     * once, but with the STORED paths rather than the located ones.
     */
    method OnFileAdded(className: string, classPath: string, moduleName: string, files: set<string>, autoCompile: bool)
      modifies this
      ensures onFilesCreated == old(onFilesCreated) && onErrorOrCancelled == old(onErrorOrCancelled)
      ensures LocateFiles(className, classPath, files).NotFound? ==>
        log == old(log) + [ErrorOrCancelled(onErrorOrCancelled, LocateFiles(className, classPath, files).description)] &&
        Unchanged(old(isWaitingForCompile), old(patchingPending), old(pendingHeaderPath), old(pendingCppPath))
      ensures LocateFiles(className, classPath, files).Found? && autoCompile ==>
        log == old(log) && isWaitingForCompile && patchingPending &&
        pendingHeaderPath == LocateFiles(className, classPath, files).headerPath &&
        pendingCppPath == LocateFiles(className, classPath, files).cppPath
      ensures LocateFiles(className, classPath, files).Found? && !autoCompile ==>
        log == old(log) + [FilesCreated(onFilesCreated, old(pendingHeaderPath), old(pendingCppPath))] &&
        Unchanged(old(isWaitingForCompile), old(patchingPending), old(pendingHeaderPath), old(pendingCppPath))
      ensures old(Valid()) ==> Valid()
    {
      var located := FindNewFiles(className, classPath, files);
      if located.NotFound? {
        log := log + [ErrorOrCancelled(onErrorOrCancelled, located.description)];
        return;
      }
      if autoCompile {
        isWaitingForCompile := true;
        pendingCppPath := located.cppPath;
        pendingHeaderPath := located.headerPath;
        patchingPending := true;
      } else {
        log := log + [FilesCreated(onFilesCreated, pendingHeaderPath, pendingCppPath)];
      }
    }

    /** OnFileAdded as evidently intended: without automatic compilation the located paths are reported. */
    method OnFileAddedCorrected(className: string, classPath: string, moduleName: string, files: set<string>, autoCompile: bool)
      modifies this
      ensures onFilesCreated == old(onFilesCreated) && onErrorOrCancelled == old(onErrorOrCancelled)
      ensures LocateFiles(className, classPath, files).NotFound? ==>
        log == old(log) + [ErrorOrCancelled(onErrorOrCancelled, LocateFiles(className, classPath, files).description)] &&
        Unchanged(old(isWaitingForCompile), old(patchingPending), old(pendingHeaderPath), old(pendingCppPath))
      ensures LocateFiles(className, classPath, files).Found? && autoCompile ==>
        log == old(log) && isWaitingForCompile && patchingPending &&
        pendingHeaderPath == LocateFiles(className, classPath, files).headerPath &&
        pendingCppPath == LocateFiles(className, classPath, files).cppPath
      ensures LocateFiles(className, classPath, files).Found? && !autoCompile ==>
        log == old(log) + [FilesCreated(onFilesCreated, LocateFiles(className, classPath, files).headerPath,
                                        LocateFiles(className, classPath, files).cppPath)] &&
        Unchanged(old(isWaitingForCompile), old(patchingPending), old(pendingHeaderPath), old(pendingCppPath))
      ensures |log| == |old(log)| + 1 && log[|log| - 1].FilesCreated? ==>
        log[|log| - 1].headerPath in files && log[|log| - 1].cppPath in files
      ensures old(Valid()) ==> Valid()
    {
      var located := FindNewFiles(className, classPath, files);
      if located.NotFound? {
        log := log + [ErrorOrCancelled(onErrorOrCancelled, located.description)];
        return;
      }
      if autoCompile {
        isWaitingForCompile := true;
        pendingCppPath := located.cppPath;
        pendingHeaderPath := located.headerPath;
        patchingPending := true;
      } else {
        log := log + [FilesCreated(onFilesCreated, located.headerPath, located.cppPath)];
      }
    }

    /** The waiting state is the given one. */
    ghost predicate Unchanged(waiting: bool, pending: bool, headerPath: string, cppPath: string)
      reads this
    {
      isWaitingForCompile == waiting && patchingPending == pending &&
      pendingHeaderPath == headerPath && pendingCppPath == cppPath
    }

    /**
     * UFileCreationProcess::OnLiveCodingPatchComplete: nothing unless a
     * continuation is set; otherwise it reports the stored paths and clears
     * the flag, the paths and itself, so a second patch reports nothing.
     */
    method OnLiveCodingPatchComplete()
      modifies this
      ensures onFilesCreated == old(onFilesCreated) && onErrorOrCancelled == old(onErrorOrCancelled)
      ensures !old(patchingPending) ==>
        log == old(log) && Unchanged(old(isWaitingForCompile), false, old(pendingHeaderPath), old(pendingCppPath))
      ensures old(patchingPending) ==>
        log == old(log) + [FilesCreated(onFilesCreated, old(pendingHeaderPath), old(pendingCppPath))] &&
        Unchanged(false, false, [], [])
      ensures old(Valid()) ==> Valid()
    {
      if patchingPending {
        log := log + [FilesCreated(onFilesCreated, pendingHeaderPath, pendingCppPath)];
        isWaitingForCompile := false;
        pendingCppPath := [];
        pendingHeaderPath := [];
        patchingPending := false;
      }
    }
  }

  /** The path checks at the top of OnFileAdded, written as its statements run. */
  method FindNewFiles(className: string, classPath: string, files: set<string>) returns (located: Located)
    ensures located == LocateFiles(className, classPath, files)
  {
    var headerPath := classPath + className + ".h";
    var cppPath := classPath + className + ".cpp";
    if headerPath !in files {
      return NotFound("Unable to find the newly created header at " + headerPath);
    }
    if cppPath !in files {
      var classPathWithoutTrailingSlash := classPath;
      if EndsWith(classPathWithoutTrailingSlash, "\\") || EndsWith(classPathWithoutTrailingSlash, "/") {
        classPathWithoutTrailingSlash := classPathWithoutTrailingSlash[..|classPathWithoutTrailingSlash| - 1];
      }
      var parentDir := GetPath(classPathWithoutTrailingSlash);
      var privateCppPath := Combine(Combine(parentDir, "Private"), className + ".cpp");
      if privateCppPath in files {
        cppPath := privateCppPath;
      } else {
        return NotFound("Unable to find the newly created cpp at " + cppPath);
      }
    }
    located := Found(headerPath, cppPath);
  }

  /**
   * Without automatic compilation, a fresh process reports two empty paths
   * for a class whose header and cpp were both found.
   */
  method EmptyPathsReported() returns (reported: Event, found: Located)
    ensures found == Found("Src/Menu.h", "Src/Menu.cpp")
    ensures reported == FilesCreated(1, "", "")
  {
    var files := {"Src/Menu.h", "Src/Menu.cpp"};
    assert "Src/" + "Menu" + ".h" == "Src/Menu.h";
    assert "Src/" + "Menu" + ".cpp" == "Src/Menu.cpp";
    found := LocateFiles("Menu", "Src/", files);
    var process := new FileCreationProcess();
    var _, _ := process.Start("MenuController", 1, 2);
    process.OnFileAdded("Menu", "Src/", "Game", files, false);
    reported := process.log[|process.log| - 1];
  }

  /** The corrected OnFileAdded reports the files it found. */
  method FoundPathsReported() returns (reported: Event)
    ensures reported == FilesCreated(1, "Src/Menu.h", "Src/Menu.cpp")
  {
    var files := {"Src/Menu.h", "Src/Menu.cpp"};
    assert "Src/" + "Menu" + ".h" == "Src/Menu.h";
    assert "Src/" + "Menu" + ".cpp" == "Src/Menu.cpp";
    var process := new FileCreationProcess();
    var _, _ := process.Start("MenuController", 1, 2);
    process.OnFileAddedCorrected("Menu", "Src/", "Game", files, false);
    reported := process.log[|process.log| - 1];
  }
}
