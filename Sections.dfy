/**
 * What the regenerated sections guarantee: neither of them contains the end
 * marker it is written in front of, so a header or cpp file once updated
 * reads back the section written into it, and updating it again replaces
 * exactly that section.
 */
module Sections {
  import opened Strings
  import opened Widgets
  import opened MarkerSplice
  import opened Templates
  import opened Generator

  /**
   * The shape every section marker has: it starts and ends with '/', and
   * holds neither a line break, nor the '*' of a pointer declaration.
   */
  predicate MarkerShaped(pat: string)
  {
    |pat| > 0 && pat[0] == '/' && pat[|pat| - 1] == '/' && '\n' !in pat && '*' !in pat
  }

  lemma {:induction false} MarkerIsShaped(title: string)
    requires '\n' !in title && '*' !in title
    ensures MarkerShaped(Marker(title)) && |Marker(title)| == |title| + 28
  {
    var m := Marker(title);
    assert m == "// " + Dashes + " " + title + " " + Dashes + " //";
    assert m[0] == '/';
    assert m[|m| - 1] == '/';
    assert forall c :: c in m ==> c in "// " || c in Dashes || c in " " || c in title || c in " //";
  }

  lemma PropertiesEndMarkerShape()
    ensures MarkerShaped(PropertiesSectionEndMarker) && |PropertiesSectionEndMarker| == 60
  {
    MarkerIsShaped("End Generated Properties Section");
  }

  lemma IncludesEndMarkerShape()
    ensures MarkerShaped(IncludeSectionEndMarker) && |IncludeSectionEndMarker| == 58
  {
    MarkerIsShaped("End Generated Includes Section");
  }

  lemma StartMarkersNonEmpty()
    ensures |PropertiesSectionStartMarker| > 0 && |IncludeSectionStartMarker| > 0
  {
    MarkerIsShaped("Generated Properties Section");
    MarkerIsShaped("Generated Includes Section");
  }

  /** The banner with its two line breaks is shorter than either end marker. */
  lemma BannerLinesLength()
    ensures |"\n" + DoNotModifyComment + "\n"| == 56
  {
  }

  /** A text shorter than a pattern cannot contain it. */
  lemma ShortNoOccurrence(t: string, pat: string)
    requires |t| < |pat|
    ensures NoOccurrence(t, pat)
  {
  }

  // ---------------------------------------------------------------------
  // The header's properties section

  /** No widget name and no declared class name contains `pat`. */
  ghost predicate NamesLack(classes: seq<ClassInfo>, widgets: seq<Widget>, pat: string)
    requires ValidArena(classes) && WidgetsIn(classes, widgets)
  {
    forall k :: 0 <= k < |widgets| ==>
      NoOccurrence(widgets[k].name, pat) && NoOccurrence(DeclaredClassName(classes, widgets[k]), pat)
  }

  lemma LabelLineLacksSlash()
    ensures '/' !in "    " + BindWidgetLabel + "\n"
  {
  }

  lemma DeclarationPiecesLackSlash()
    ensures '/' !in "    class U" && '/' !in "*" && '/' !in " " && '/' !in " = nullptr;\n" && '/' !in "\n"
  {
  }

  /** A declaration contains a marker only if the class name or the widget name does. */
  lemma DeclarationLacks(className: string, widgetName: string, pat: string)
    requires MarkerShaped(pat) && NoOccurrence(className, pat) && NoOccurrence(widgetName, pat)
    ensures NoOccurrence(PropertyDeclaration(className, widgetName), pat)
  {
    var labelLine := "    " + BindWidgetLabel + "\n";
    var pointer := "    class U" + className + "*";
    var rest := " " + widgetName + " = nullptr;\n";
    LabelLineLacksSlash();
    DeclarationPiecesLackSlash();
    NoOccurrenceWithoutHead(labelLine, pat);
    WrappedNoOccurrence("    class U", className, "*", pat);
    WrappedNoOccurrence(" ", widgetName, " = nullptr;\n", pat);
    ConcatNoOccurrence(pointer, rest, pat);
    assert pointer + rest == "    class U" + className + "* " + widgetName + " = nullptr;\n";
    ConcatNoOccurrence(labelLine, pointer + rest, pat);
    assert PropertyDeclaration(className, widgetName) == labelLine + (pointer + rest);
  }

  /** The declarations contain a marker only if some name does. */
  lemma {:induction false} DeclarationsLack(classes: seq<ClassInfo>, widgets: seq<Widget>, pat: string)
    requires ValidArena(classes) && WidgetsIn(classes, widgets)
    requires MarkerShaped(pat) && NamesLack(classes, widgets, pat)
    ensures NoOccurrence(PropertyDeclarations(classes, widgets), pat)
  {
    if |widgets| > 0 {
      var n := |widgets| - 1;
      WidgetsInPrefix(classes, widgets, n);
      NamesLackPrefix(classes, widgets, n, pat);
      DeclarationsLack(classes, widgets[..n], pat);
      DeclarationsLackStep(classes, widgets, pat);
    }
  }

  /** The declarations of all the widgets lack a marker when those of all but the last do and the last's names do. */
  lemma DeclarationsLackStep(classes: seq<ClassInfo>, widgets: seq<Widget>, pat: string)
    requires ValidArena(classes) && WidgetsIn(classes, widgets) && |widgets| > 0 && MarkerShaped(pat)
    requires WidgetsIn(classes, widgets[..|widgets| - 1])
    requires NoOccurrence(PropertyDeclarations(classes, widgets[..|widgets| - 1]), pat)
    requires NamesLack(classes, widgets, pat)
    ensures NoOccurrence(PropertyDeclarations(classes, widgets), pat)
  {
    var n := |widgets| - 1;
    var name := DeclaredClassName(classes, widgets[n]);
    DeclarationLacks(name, widgets[n].name, pat);
    JoinedLack(PropertyDeclarations(classes, widgets[..n]), if n == 0 then "" else "\n",
               PropertyDeclaration(name, widgets[n].name), pat);
  }

  lemma NamesLackPrefix(classes: seq<ClassInfo>, widgets: seq<Widget>, n: nat, pat: string)
    requires ValidArena(classes) && WidgetsIn(classes, widgets) && n <= |widgets|
    requires NamesLack(classes, widgets, pat)
    ensures WidgetsIn(classes, widgets[..n]) && NamesLack(classes, widgets[..n], pat)
  {
    WidgetsInPrefix(classes, widgets, n);
    forall k | 0 <= k < n
      ensures NoOccurrence(widgets[..n][k].name, pat) && NoOccurrence(DeclaredClassName(classes, widgets[..n][k]), pat)
    {
      assert widgets[..n][k] == widgets[k];
    }
  }

  /** Two texts free of a marker, joined directly when the first is empty or else by a line break, are free of it. */
  lemma JoinedLack(prefix: string, sep: string, item: string, pat: string)
    requires MarkerShaped(pat) && NoOccurrence(prefix, pat) && NoOccurrence(item, pat)
    requires (sep == "" && prefix == []) || sep == "\n"
    ensures NoOccurrence(prefix + sep + item, pat)
  {
    if sep == "" {
      assert prefix + sep + item == item;
    } else {
      NoOccurrenceWithoutHead(sep, pat);
      ConcatNoOccurrence(sep, item, pat);
      ConcatNoOccurrence(prefix, sep + item, pat);
      assert prefix + sep + item == prefix + (sep + item);
    }
  }

  /** The properties section can be read back and rewritten when no name contains the end marker. */
  lemma HeaderSectionSpliceable(classes: seq<ClassInfo>, widgets: seq<Widget>)
    requires ValidArena(classes) && WidgetsIn(classes, widgets)
    requires NamesLack(classes, widgets, PropertiesSectionEndMarker)
    ensures SpliceableSection(PropertiesSectionStartMarker, PropertiesSectionEndMarker, HeaderSection(classes, widgets))
  {
    var em := PropertiesSectionEndMarker;
    var banner := "\n" + DoNotModifyComment + "\n";
    var body := PropertyDeclarations(classes, widgets);
    PropertiesEndMarkerShape();
    StartMarkersNonEmpty();
    BannerLinesLength();
    ShortNoOccurrence(banner, em);
    DeclarationsLack(classes, widgets, em);
    ConcatNoOccurrence(banner, body, em);
    assert HeaderSection(classes, widgets) == banner + body;
  }

  /**
   * UpdateHeaderFile applied to its own output changes nothing: the second
   * splice finds the section the first one wrote and writes it again.
   */
  lemma HeaderUpdateIdempotent(classes: seq<ClassInfo>, widgets: seq<Widget>, headerContents: string)
    requires ValidArena(classes) && WidgetsIn(classes, widgets)
    requires NamesLack(classes, widgets, PropertiesSectionEndMarker)
    requires MarkersInOrder(headerContents, PropertiesSectionStartMarker, PropertiesSectionEndMarker)
    ensures var once := Splice(headerContents, PropertiesSectionStartMarker, PropertiesSectionEndMarker,
                               HeaderSection(classes, widgets));
      once != [] &&
      Splice(once, PropertiesSectionStartMarker, PropertiesSectionEndMarker, HeaderSection(classes, widgets)) == once
  {
    HeaderSectionSpliceable(classes, widgets);
    SpliceIdempotent(headerContents, PropertiesSectionStartMarker, PropertiesSectionEndMarker,
                     HeaderSection(classes, widgets));
  }

  /** The properties section of an updated header is the one UpdateHeaderFile wrote. */
  lemma HeaderUpdateReadBack(classes: seq<ClassInfo>, widgets: seq<Widget>, headerContents: string)
    requires ValidArena(classes) && WidgetsIn(classes, widgets)
    requires NamesLack(classes, widgets, PropertiesSectionEndMarker)
    requires MarkersInOrder(headerContents, PropertiesSectionStartMarker, PropertiesSectionEndMarker)
    ensures Section(Splice(headerContents, PropertiesSectionStartMarker, PropertiesSectionEndMarker,
                           HeaderSection(classes, widgets)),
                    PropertiesSectionStartMarker, PropertiesSectionEndMarker) == Some(HeaderSection(classes, widgets))
  {
    HeaderSectionSpliceable(classes, widgets);
    SpliceThenSection(headerContents, PropertiesSectionStartMarker, PropertiesSectionEndMarker,
                      HeaderSection(classes, widgets));
  }

  // ---------------------------------------------------------------------
  // The cpp file's includes section

  lemma IncludePiecesLackSlash()
    ensures '/' !in "#include \"" && '/' !in "\"\n"
  {
  }

  /** The include lines contain a marker only if some include path does. */
  lemma {:induction false} IncludeLinesLack(paths: seq<string>, pat: string)
    requires MarkerShaped(pat)
    requires forall p :: p in paths ==> NoOccurrence(p, pat)
    ensures NoOccurrence(IncludeLines(paths), pat)
  {
    if |paths| > 0 {
      var n := |paths| - 1;
      assert forall p :: p in paths[..n] ==> p in paths;
      IncludeLinesLack(paths[..n], pat);
      IncludePiecesLackSlash();
      WrappedNoOccurrence("#include \"", paths[n], "\"\n", pat);
      var prefix := IncludeLines(paths[..n]);
      if |prefix| == 0 {
        assert IncludeLines(paths) == IncludeLine(paths[n]);
      } else {
        IncludeLinesEndWithBreak(paths[..n]);
        ConcatNoOccurrence(prefix, IncludeLine(paths[n]), pat);
      }
    }
  }

  /** Include lines end with a line break. */
  lemma {:induction false} IncludeLinesEndWithBreak(paths: seq<string>)
    ensures |IncludeLines(paths)| > 0 ==> IncludeLines(paths)[|IncludeLines(paths)| - 1] == '\n'
  {
    if |paths| > 0 {
      var line := IncludeLine(paths[|paths| - 1]);
      assert line[|line| - 1] == '\n';
    }
  }

  /** The includes section can be read back and rewritten when no include path contains the end marker. */
  lemma CppSectionSpliceable(order: seq<string>)
    requires forall p :: p in order ==> NoOccurrence(p, IncludeSectionEndMarker)
    ensures SpliceableSection(IncludeSectionStartMarker, IncludeSectionEndMarker, CppSection(order))
  {
    var em := IncludeSectionEndMarker;
    var banner := "\n" + DoNotModifyComment + "\n";
    var body := IncludeLines(order);
    IncludesEndMarkerShape();
    StartMarkersNonEmpty();
    BannerLinesLength();
    ShortNoOccurrence(banner, em);
    IncludeLinesLack(order, em);
    IncludeLinesEndWithBreak(order);
    ConcatNoOccurrence(banner, body, em);
    assert CppSection(order) == banner + body;
  }

  /** The table's values contain the end marker only if some value does; "" never does. */
  lemma IncludePathsLack(classes: seq<ClassInfo>, table: map<string, string>, widgets: seq<Widget>, pat: string)
    requires ValidArena(classes) && WidgetsIn(classes, widgets) && |pat| > 0
    requires forall k :: k in table ==> NoOccurrence(table[k], pat)
    ensures forall p :: p in Elements(IncludePaths(classes, table, widgets)) ==> NoOccurrence(p, pat)
  {
    forall p | p in Elements(IncludePaths(classes, table, widgets))
      ensures NoOccurrence(p, pat)
    {
      var paths := IncludePaths(classes, table, widgets);
      var i :| 0 <= i < |paths| && paths[i] == p;
      ShortNoOccurrence("", pat);
    }
  }

  /**
   * UpdateCppFile over its own output: whatever order the second update
   * walks the include set in, the result is what that update would have
   * made of the original file. In particular, the includes section of the
   * second update holds the same include lines, up to order.
   */
  lemma CppUpdateOverUpdate(cppContents: string, order: seq<string>, order2: seq<string>)
    requires forall p :: p in order ==> NoOccurrence(p, IncludeSectionEndMarker)
    requires MarkersInOrder(cppContents, IncludeSectionStartMarker, IncludeSectionEndMarker)
    ensures var once := Splice(cppContents, IncludeSectionStartMarker, IncludeSectionEndMarker, CppSection(order));
      once != [] &&
      Splice(once, IncludeSectionStartMarker, IncludeSectionEndMarker, CppSection(order2)) ==
      Splice(cppContents, IncludeSectionStartMarker, IncludeSectionEndMarker, CppSection(order2))
  {
    CppSectionSpliceable(order);
    SpliceReplacesSection(cppContents, IncludeSectionStartMarker, IncludeSectionEndMarker,
                          CppSection(order), CppSection(order2));
  }

  /** The includes section of an updated cpp file is the one UpdateCppFile wrote. */
  lemma CppUpdateReadBack(cppContents: string, order: seq<string>)
    requires forall p :: p in order ==> NoOccurrence(p, IncludeSectionEndMarker)
    requires MarkersInOrder(cppContents, IncludeSectionStartMarker, IncludeSectionEndMarker)
    ensures Section(Splice(cppContents, IncludeSectionStartMarker, IncludeSectionEndMarker, CppSection(order)),
                    IncludeSectionStartMarker, IncludeSectionEndMarker) == Some(CppSection(order))
  {
    CppSectionSpliceable(order);
    SpliceThenSection(cppContents, IncludeSectionStartMarker, IncludeSectionEndMarker, CppSection(order));
  }
}
