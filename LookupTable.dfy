/**
 * UHeaderLookupTable: a table from class name to the path a generated cpp
 * file should #include, built from the modules of the Unreal Header Tool
 * manifest.
 */
module LookupTable {
  import opened Strings
  import opened Paths

  /** The parts of one manifest module entry the table is built from. */
  datatype ModuleModel = ModuleModel(
    name: string,
    baseDirectory: string,
    classesHeaders: seq<string>,
    publicHeaders: seq<string>,
    internalHeaders: seq<string>,
    privateHeaders: seq<string>)

  /**
   * The include path stored for a header below `baseDirectory`: the base
   * directory is cut, then one leading '\', a leading "Public\", a leading
   * "Private\", in that order, and every '\' becomes '/'.
   */
  function Abbreviation(headerPath: string, baseDirectory: string): (r: string)
    ensures '\\' !in r
  {
    var a := RightChop(headerPath, |baseDirectory|);
    var b := DropPrefix(a, "\\");
    var c := DropPrefix(b, "Public\\");
    var d := DropPrefix(c, "Private\\");
    ReplaceAllRemovesChar(d, '\\', "/");
    ReplaceAll(d, "\\", "/")
  }

  /** The entry a header would make: its class name and include path, when it lies under the base directory. */
  datatype Entry = Entry(className: string, includePath: string)

  function HeaderEntry(headerPath: string, baseDirectory: string): (r: Option<Entry>)
    ensures r.Some? <==> StartsWith(headerPath, baseDirectory)
    ensures r.Some? ==> '\\' !in r.value.includePath
  {
    if StartsWith(headerPath, baseDirectory) then
      Some(Entry(BaseFilename(headerPath), Abbreviation(headerPath, baseDirectory)))
    else
      None
  }

  /** The entries of a header list, header by header. */
  function HeaderEntries(baseDirectory: string, headers: seq<string>): (r: seq<Option<Entry>>)
    ensures |r| == |headers|
  {
    seq(|headers|, i requires 0 <= i < |headers| => HeaderEntry(headers[i], baseDirectory))
  }

  /** One entry's effect on the table: a new class name gets its include path; a known one keeps its own. */
  function AddEntry(table: map<string, string>, entry: Option<Entry>): map<string, string>
  {
    if entry.Some? && entry.value.className !in table then
      table[entry.value.className := entry.value.includePath]
    else
      table
  }

  /** The table after adding entries one after the other. */
  function AddEntries(table: map<string, string>, entries: seq<Option<Entry>>): map<string, string>
  {
    if |entries| == 0 then table
    else AddEntry(AddEntries(table, entries[..|entries| - 1]), entries[|entries| - 1])
  }

  /** The table after adding a module's header list. */
  function AddHeaders(table: map<string, string>, baseDirectory: string, headers: seq<string>): map<string, string>
  {
    AddEntries(table, HeaderEntries(baseDirectory, headers))
  }

  /** A module's contribution: its private, then internal, then public headers; its ClassesHeaders are not read. */
  function AddModule(table: map<string, string>, m: ModuleModel): map<string, string>
  {
    var t1 := AddHeaders(table, m.baseDirectory, m.privateHeaders);
    var t2 := AddHeaders(t1, m.baseDirectory, m.internalHeaders);
    AddHeaders(t2, m.baseDirectory, m.publicHeaders)
  }

  /** The table built from an empty start over the manifest's modules in order. */
  function BuildTable(modules: seq<ModuleModel>): map<string, string>
  {
    if |modules| == 0 then map[]
    else AddModule(BuildTable(modules[..|modules| - 1]), modules[|modules| - 1])
  }

  /** No include path in the table holds a backslash. */
  predicate ForwardSlashesOnly(table: map<string, string>)
  {
    forall k :: k in table ==> '\\' !in table[k]
  }

  /** An entry for `className`. */
  predicate Names(entry: Option<Entry>, className: string)
  {
    entry.Some? && entry.value.className == className
  }

  /** A header under `baseDirectory` that names `className`. */
  predicate Contributes(headerPath: string, baseDirectory: string, className: string)
  {
    StartsWith(headerPath, baseDirectory) && BaseFilename(headerPath) == className
  }

  // ---------------------------------------------------------------------
  // Properties of the table construction

  /** Adding entries never changes or removes an entry that is already there. */
  lemma {:induction false} AddEntriesKeeps(table: map<string, string>, entries: seq<Option<Entry>>, k: string)
    requires k in table
    ensures k in AddEntries(table, entries) && AddEntries(table, entries)[k] == table[k]
  {
    if |entries| > 0 {
      AddEntriesKeeps(table, entries[..|entries| - 1], k);
    }
  }

  /** The keys added are exactly the class names of the entries. */
  lemma {:induction false} AddEntriesKeys(table: map<string, string>, entries: seq<Option<Entry>>, k: string)
    ensures k in AddEntries(table, entries) <==>
      k in table || exists i :: 0 <= i < |entries| && Names(entries[i], k)
  {
    if |entries| > 0 {
      var n := |entries| - 1;
      var front := entries[..n];
      AddEntriesKeys(table, front, k);
      if exists i :: 0 <= i < n && Names(front[i], k) {
        var i :| 0 <= i < n && Names(front[i], k);
        assert Names(entries[i], k);
      }
      if exists i :: 0 <= i < |entries| && Names(entries[i], k) {
        var i :| 0 <= i < |entries| && Names(entries[i], k);
        if i < n {
          assert Names(front[i], k);
        }
      }
    }
  }

  /** The first entry naming a class not yet in the table decides its include path. */
  lemma {:induction false} AddEntriesFirstWins(table: map<string, string>, entries: seq<Option<Entry>>, i: nat)
    requires i < |entries| && entries[i].Some? && entries[i].value.className !in table
    requires forall j :: 0 <= j < i ==> !Names(entries[j], entries[i].value.className)
    ensures var k := entries[i].value.className;
      k in AddEntries(table, entries) && AddEntries(table, entries)[k] == entries[i].value.includePath
  {
    var n := |entries| - 1;
    var front := entries[..n];
    var k := entries[i].value.className;
    if i == n {
      AddEntriesKeys(table, front, k);
    } else {
      assert front[i] == entries[i];
      AddEntriesFirstWins(table, front, i);
      AddEntriesKeeps(AddEntries(table, front), [entries[n]], k);
    }
  }

  /** Every stored include path is free of backslashes when the entries' and the starting table's are. */
  lemma {:induction false} AddEntriesNoBackslash(table: map<string, string>, entries: seq<Option<Entry>>)
    requires ForwardSlashesOnly(table)
    requires forall i :: 0 <= i < |entries| && entries[i].Some? ==> '\\' !in entries[i].value.includePath
    ensures ForwardSlashesOnly(AddEntries(table, entries))
  {
    if |entries| > 0 {
      AddEntriesNoBackslash(table, entries[..|entries| - 1]);
    }
  }

  /** The class names a header list adds are the base file names of its headers under the base directory. */
  lemma AddHeadersKeys(table: map<string, string>, baseDirectory: string, headers: seq<string>, k: string)
    ensures k in AddHeaders(table, baseDirectory, headers) <==>
      k in table || exists i :: 0 <= i < |headers| && Contributes(headers[i], baseDirectory, k)
  {
    var entries := HeaderEntries(baseDirectory, headers);
    AddEntriesKeys(table, entries, k);
    forall i | 0 <= i < |headers|
      ensures Names(entries[i], k) <==> Contributes(headers[i], baseDirectory, k)
    {
      assert entries[i] == HeaderEntry(headers[i], baseDirectory);
    }
  }

  /** The first header under the base directory naming a new class decides its include path. */
  lemma AddHeadersFirstWins(table: map<string, string>, baseDirectory: string, headers: seq<string>, i: nat)
    requires i < |headers| && Contributes(headers[i], baseDirectory, BaseFilename(headers[i]))
    requires BaseFilename(headers[i]) !in table
    requires forall j :: 0 <= j < i ==> !Contributes(headers[j], baseDirectory, BaseFilename(headers[i]))
    ensures var k := BaseFilename(headers[i]);
      k in AddHeaders(table, baseDirectory, headers) &&
      AddHeaders(table, baseDirectory, headers)[k] == Abbreviation(headers[i], baseDirectory)
  {
    var entries := HeaderEntries(baseDirectory, headers);
    var k := BaseFilename(headers[i]);
    assert entries[i] == Some(Entry(k, Abbreviation(headers[i], baseDirectory)));
    forall j | 0 <= j < i ensures !Names(entries[j], k) {
      assert entries[j] == HeaderEntry(headers[j], baseDirectory);
    }
    AddEntriesFirstWins(table, entries, i);
  }

  /** Every include path in a built table is free of backslashes. */
  lemma {:induction false} BuildTableNoBackslash(modules: seq<ModuleModel>)
    ensures ForwardSlashesOnly(BuildTable(modules))
  {
    if |modules| > 0 {
      var n := |modules| - 1;
      BuildTableNoBackslash(modules[..n]);
      var m := modules[n];
      var t := BuildTable(modules[..n]);
      var e1 := HeaderEntries(m.baseDirectory, m.privateHeaders);
      var e2 := HeaderEntries(m.baseDirectory, m.internalHeaders);
      var e3 := HeaderEntries(m.baseDirectory, m.publicHeaders);
      HeaderEntriesNoBackslash(m.baseDirectory, m.privateHeaders);
      HeaderEntriesNoBackslash(m.baseDirectory, m.internalHeaders);
      HeaderEntriesNoBackslash(m.baseDirectory, m.publicHeaders);
      AddEntriesNoBackslash(t, e1);
      AddEntriesNoBackslash(AddEntries(t, e1), e2);
      AddEntriesNoBackslash(AddEntries(AddEntries(t, e1), e2), e3);
    }
  }

  /** The entries of a header list carry no backslash. */
  lemma HeaderEntriesNoBackslash(baseDirectory: string, headers: seq<string>)
    ensures var entries := HeaderEntries(baseDirectory, headers);
      forall i :: 0 <= i < |entries| && entries[i].Some? ==> '\\' !in entries[i].value.includePath
  {
    var entries := HeaderEntries(baseDirectory, headers);
    forall i | 0 <= i < |entries| && entries[i].Some?
      ensures '\\' !in entries[i].value.includePath
    {
      assert entries[i] == HeaderEntry(headers[i], baseDirectory);
    }
  }

  /** Within a module, a class's first private header wins over any internal or public header. */
  lemma PrivateHeaderWins(table: map<string, string>, m: ModuleModel, i: nat)
    requires i < |m.privateHeaders| && Contributes(m.privateHeaders[i], m.baseDirectory, BaseFilename(m.privateHeaders[i]))
    requires BaseFilename(m.privateHeaders[i]) !in table
    requires forall j :: 0 <= j < i ==> !Contributes(m.privateHeaders[j], m.baseDirectory, BaseFilename(m.privateHeaders[i]))
    ensures var k := BaseFilename(m.privateHeaders[i]);
      k in AddModule(table, m) && AddModule(table, m)[k] == Abbreviation(m.privateHeaders[i], m.baseDirectory)
  {
    var k := BaseFilename(m.privateHeaders[i]);
    var t1 := AddHeaders(table, m.baseDirectory, m.privateHeaders);
    AddHeadersFirstWins(table, m.baseDirectory, m.privateHeaders, i);
    var t2 := AddHeaders(t1, m.baseDirectory, m.internalHeaders);
    AddEntriesKeeps(t1, HeaderEntries(m.baseDirectory, m.internalHeaders), k);
    AddEntriesKeeps(t2, HeaderEntries(m.baseDirectory, m.publicHeaders), k);
  }

  /** An entry made by an earlier module survives every later module. */
  lemma {:induction false} BuildTableKeeps(modules: seq<ModuleModel>, i: nat, k: string)
    requires i <= |modules| && k in BuildTable(modules[..i])
    ensures k in BuildTable(modules) && BuildTable(modules)[k] == BuildTable(modules[..i])[k]
    decreases |modules|
  {
    if i < |modules| {
      var n := |modules| - 1;
      assert modules[..n][..i] == modules[..i];
      BuildTableKeeps(modules[..n], i, k);
      var t := BuildTable(modules[..n]);
      var m := modules[n];
      var t1 := AddHeaders(t, m.baseDirectory, m.privateHeaders);
      var t2 := AddHeaders(t1, m.baseDirectory, m.internalHeaders);
      AddEntriesKeeps(t, HeaderEntries(m.baseDirectory, m.privateHeaders), k);
      AddEntriesKeeps(t1, HeaderEntries(m.baseDirectory, m.internalHeaders), k);
      AddEntriesKeeps(t2, HeaderEntries(m.baseDirectory, m.publicHeaders), k);
    } else {
      assert modules[..i] == modules;
    }
  }

  /** A name without backslashes never starts with a folder name ending in one. */
  lemma NoFolderPrefix(rest: string, folder: string)
    requires '\\' !in rest && |folder| > 0 && folder[|folder| - 1] == '\\'
    ensures DropPrefix(rest, folder) == rest
  {
  }

  /** The path below the base directory, which needs no replacement when it has no backslash. */
  lemma AbbreviationTail(rest: string)
    requires '\\' !in rest
    ensures ReplaceAll(rest, "\\", "/") == rest
  {
    ReplaceAllSkips(rest, "", "\\", "/");
    assert rest + "" == rest;
  }

  /** A header with no backslash of its own, in a Public folder, is stored as the rest of its path. */
  lemma AbbreviationOfPublicHeader(baseDirectory: string, rest: string)
    requires '\\' !in rest
    ensures Abbreviation(baseDirectory + "\\Public\\" + rest, baseDirectory) == rest
  {
    var a := "\\" + ("Public\\" + rest);
    assert baseDirectory + "\\Public\\" + rest == baseDirectory + a;
    DropPrefixOf(baseDirectory, a);
    DropPrefixOf("\\", "Public\\" + rest);
    DropPrefixOf("Public\\", rest);
    NoFolderPrefix(rest, "Private\\");
    AbbreviationTail(rest);
  }

  /** A header in "Public\Private\" loses both folder names, Public first. */
  lemma AbbreviationOfPublicPrivateHeader(baseDirectory: string, rest: string)
    requires '\\' !in rest
    ensures Abbreviation(baseDirectory + "\\Public\\Private\\" + rest, baseDirectory) == rest
  {
    var a := "\\" + ("Public\\" + ("Private\\" + rest));
    assert baseDirectory + "\\Public\\Private\\" + rest == baseDirectory + a;
    DropPrefixOf(baseDirectory, a);
    DropPrefixOf("\\", "Public\\" + ("Private\\" + rest));
    DropPrefixOf("Public\\", "Private\\" + rest);
    DropPrefixOf("Private\\", rest);
    AbbreviationTail(rest);
  }

  // ---------------------------------------------------------------------
  // The table object

  class HeaderLookupTable {
    /** Class name (without the "U" prefix) to include path. */
    var lookupTable: map<string, string>

    constructor()
      ensures lookupTable == map[]
    {
      lookupTable := map[];
    }

    /**
     * Rebuilds the table from the manifest's modules. `manifest` is None when
     * the manifest file could not be loaded or parsed; the table is then left
     * as it was.
     */
    method InitTable(manifest: Option<seq<ModuleModel>>)
      modifies this
      ensures manifest.None? ==> lookupTable == old(lookupTable)
      ensures manifest.Some? ==> lookupTable == BuildTable(manifest.value)
    {
      if manifest.None? {
        return;
      }
      var modules := manifest.value;
      lookupTable := map[];
      for i := 0 to |modules|
        invariant lookupTable == BuildTable(modules[..i])
      {
        var moduleModel := modules[i];
        AddHeaderArray(moduleModel.baseDirectory, moduleModel.privateHeaders);
        AddHeaderArray(moduleModel.baseDirectory, moduleModel.internalHeaders);
        AddHeaderArray(moduleModel.baseDirectory, moduleModel.publicHeaders);
        assert modules[..i + 1][..i] == modules[..i];
      }
      assert modules[..|modules|] == modules;
    }

    /** The per-module `addHeaders` step: adds each header under the base directory whose class is new. */
    method AddHeaderArray(moduleBasePath: string, headerArray: seq<string>)
      modifies this
      ensures lookupTable == AddHeaders(old(lookupTable), moduleBasePath, headerArray)
    {
      ghost var start := lookupTable;
      ghost var entries := HeaderEntries(moduleBasePath, headerArray);
      for i := 0 to |headerArray|
        invariant lookupTable == AddEntries(start, entries[..i])
      {
        assert entries[i] == HeaderEntry(headerArray[i], moduleBasePath);
        var headerPath := headerArray[i];
        var className := BaseFilename(headerPath);
        if StartsWith(headerPath, moduleBasePath) {
          var abbreviatedHeaderPath := AbbreviateHeaderPath(headerPath, moduleBasePath);
          if className !in lookupTable {
            lookupTable := lookupTable[className := abbreviatedHeaderPath];
          }
        }
        assert entries[..i + 1][..i] == entries[..i];
      }
      assert entries[..|headerArray|] == entries;
    }

    /** The include path for `className`, or "" when the table has none. */
    function GetIncludeFilePathFor(className: string): (r: string)
      reads this
      ensures className in lookupTable ==> r == lookupTable[className]
      ensures className !in lookupTable ==> r == []
    {
      if className in lookupTable then lookupTable[className] else []
    }
  }

  /** The step-by-step shortening of a header path done inside `addHeaders`. */
  method AbbreviateHeaderPath(headerPath: string, moduleBasePath: string) returns (abbreviatedHeaderPath: string)
    ensures abbreviatedHeaderPath == Abbreviation(headerPath, moduleBasePath)
    ensures '\\' !in abbreviatedHeaderPath
  {
    abbreviatedHeaderPath := RightChop(headerPath, |moduleBasePath|);
    var backslash := "\\";
    if StartsWith(abbreviatedHeaderPath, "\\") {
      abbreviatedHeaderPath := RightChop(abbreviatedHeaderPath, |backslash|);
    }
    var publicPrefix := "Public\\";
    if StartsWith(abbreviatedHeaderPath, publicPrefix) {
      abbreviatedHeaderPath := RightChop(abbreviatedHeaderPath, |publicPrefix|);
    }
    var privatePrefix := "Private\\";
    if StartsWith(abbreviatedHeaderPath, privatePrefix) {
      abbreviatedHeaderPath := RightChop(abbreviatedHeaderPath, |privatePrefix|);
    }
    abbreviatedHeaderPath := ReplaceAll(abbreviatedHeaderPath, backslash, "/");
  }
}
