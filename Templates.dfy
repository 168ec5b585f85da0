/**
 * The text the generator starts from: the section markers, the banner and
 * property label it writes, the placeholders, and the two file templates
 * filled by FString::Replace when a controller is first created.
 */
module Templates {
  import opened Strings

  /** The ten dashes on either side of a marker's title. */
  const Dashes: string := "----------"

  /** A section marker line: `// ---------- <title> ---------- //`. */
  function Marker(title: string): string
  {
    "// " + Dashes + " " + title + " " + Dashes + " //"
  }

  const PropertiesSectionStartMarker: string := Marker("Generated Properties Section")
  const PropertiesSectionEndMarker: string := Marker("End Generated Properties Section")
  const IncludeSectionStartMarker: string := Marker("Generated Includes Section")
  const IncludeSectionEndMarker: string := Marker("End Generated Includes Section")
  const MethodSectionStartMarker: string := Marker("Generated Methods Section")
  const MethodSectionEndMarker: string := Marker("End Generated Methods Section")
  const LoaderSectionStartMarker: string := Marker("Generated Loader Section")
  const LoaderSectionEndMarker: string := Marker("End Generated Loader Section")

  /** The banner written at the top of every regenerated section (14 spaces before the closing `//`). */
  const DoNotModifyComment: string := "//             " + "(Don't modify manually)" + "              //"

  /** The banner in the header template's properties section (13 spaces before the closing `//`). */
  const HeaderPropertiesBanner: string := "//             " + "(Don't modify manually)" + "             //"

  /** The banner in the header template's loader section (12 spaces before the closing `//`). */
  const HeaderLoaderBanner: string := "//             " + "(Don't modify manually)" + "            //"

  /** The banner in the cpp template's methods section. */
  const CppMethodsBanner: string := "//             " + "(Don't modify manually)" + "             //"

  /** The label of every bound widget property. */
  const BindWidgetLabel: string := "UPROPERTY(" + "BlueprintReadOnly, " + "meta = (BindWidget))"

  const WidgetNameMarker: string := "[WIDGET_NAME]"
  const WidgetSuffixMarker: string := "[WIDGET_SUFFIX]"
  const WidgetPathMarker: string := "[WIDGET_PATH]"
  const HeaderFileNameMarker: string := "[HEADER_FILE_NAME]"

  /** The header template up to its properties section. */
  const HeaderTemplateTop: string :=
    "#pragma once\n" +
    "\n" +
    "#include \"CoreMinimal.h\"\n" +
    "#include \"Blueprint/UserWidget.h\"\n" +
    "#include \"[HEADER_FILE_NAME].generated.h\"\n" +
    "\n" +
    "UCLASS()\n" +
    "class U[WIDGET_NAME][WIDGET_SUFFIX] : public UUserWidget {\n" +
    "    GENERATED_BODY()\n" +
    "\n" +
    "public: // Methods\n" +
    "    U[WIDGET_NAME][WIDGET_SUFFIX](const FObjectInitializer& objectInitializer);\n" +
    "    virtual ~U[WIDGET_NAME][WIDGET_SUFFIX]() { }\n" +
    "\n" +
    "public: // Create Method\n" +
    "    static U[WIDGET_NAME][WIDGET_SUFFIX]* CreateInstance(APlayerController* playerController);\n" +
    "\n" +
    "public: // Properties\n"

  /** The header template's (empty) properties section, markers included. */
  const HeaderPropertiesBlock: string :=
    PropertiesSectionStartMarker + "\n" +
    HeaderPropertiesBanner + "\n" +
    PropertiesSectionEndMarker + "\n"

  /** The header template after its properties section. */
  const HeaderTemplateBottom: string :=
    "};\n" +
    "\n" +
    LoaderSectionStartMarker + "\n" +
    HeaderLoaderBanner + "\n" +
    "UCLASS()\n" +
    "class U[WIDGET_NAME]Loader : public UObject {\n" +
    "    GENERATED_BODY()\n" +
    "public:\n" +
    "    U[WIDGET_NAME]Loader();\n" +
    "    virtual ~U[WIDGET_NAME]Loader() { }\n" +
    "\n" +
    "public:\n" +
    "    UPROPERTY()\n" +
    "    UClass* WidgetTemplate = nullptr;\n" +
    "    static const inline FString WidgetPath = TEXT(\"[WIDGET_PATH]\");\n" +
    "};\n" +
    LoaderSectionEndMarker + "\n"

  const HeaderFileTemplate: string := HeaderTemplateTop + HeaderPropertiesBlock + HeaderTemplateBottom

  /** The cpp template up to its includes section. */
  const CppTemplateTop: string :=
    "#include \"[HEADER_FILE_NAME].h\"\n" +
    "\n"

  /** The cpp template's (empty) includes section, markers included. */
  const CppIncludesBlock: string :=
    IncludeSectionStartMarker + "\n" +
    DoNotModifyComment + "\n" +
    "\n" +
    IncludeSectionEndMarker + "\n"

  /** The cpp template after its includes section. */
  const CppTemplateBottom: string :=
    "\n" +
    "U[WIDGET_NAME][WIDGET_SUFFIX]::U[WIDGET_NAME][WIDGET_SUFFIX](const FObjectInitializer& objectInitializer) : UUserWidget(objectInitializer) {\n" +
    "\n" +
    "}\n" +
    "\n" +
    MethodSectionStartMarker + "\n" +
    CppMethodsBanner + "\n" +
    "U[WIDGET_NAME][WIDGET_SUFFIX]* U[WIDGET_NAME][WIDGET_SUFFIX]::CreateInstance(APlayerController* playerController) {\n" +
    "    U[WIDGET_NAME]Loader* loader = NewObject<U[WIDGET_NAME]Loader>(playerController);\n" +
    "    return Cast<U[WIDGET_NAME][WIDGET_SUFFIX]>(CreateWidget(playerController, loader->WidgetTemplate));\n" +
    "}\n" +
    "\n" +
    "U[WIDGET_NAME]Loader::U[WIDGET_NAME]Loader() {\n" +
    "    static ConstructorHelpers::FClassFinder<UUserWidget> widgetTemplateFinder(*WidgetPath);\n" +
    "    WidgetTemplate = widgetTemplateFinder.Class;\n" +
    "}\n" +
    MethodSectionEndMarker + "\n"

  const CppFileTemplate: string := CppTemplateTop + CppIncludesBlock + CppTemplateBottom

  /** The header template with its placeholders replaced, in the order CreateFiles replaces them. */
  function FillHeaderTemplate(widgetName: string, widgetSuffix: string, widgetPath: string, headerFileName: string): string
  {
    var s1 := ReplaceAll(HeaderFileTemplate, WidgetNameMarker, widgetName);
    var s2 := ReplaceAll(s1, WidgetSuffixMarker, widgetSuffix);
    var s3 := ReplaceAll(s2, WidgetPathMarker, widgetPath);
    ReplaceAll(s3, HeaderFileNameMarker, headerFileName)
  }

  /** The cpp template with its placeholders replaced, in the order CreateFiles replaces them. */
  function FillCppTemplate(widgetName: string, widgetSuffix: string, headerFileName: string): string
  {
    var s1 := ReplaceAll(CppFileTemplate, WidgetNameMarker, widgetName);
    var s2 := ReplaceAll(s1, WidgetSuffixMarker, widgetSuffix);
    ReplaceAll(s2, HeaderFileNameMarker, headerFileName)
  }

  // ---------------------------------------------------------------------
  // The marker blocks survive placeholder replacement

  /** A marker lacks every character its title and its fixed parts lack. */
  lemma MarkerLacks(title: string, c: char)
    requires c !in title && c !in "// " && c !in Dashes && c !in " //"
    ensures c !in Marker(title)
  {
  }

  lemma FixedMarkerPartsLackBracket()
    ensures '[' !in "// " && '[' !in Dashes && '[' !in " //" && '[' !in "\n"
  {
  }

  lemma PropertiesTitlesLackBracket()
    ensures '[' !in "Generated Properties Section" && '[' !in "End Generated Properties Section"
  {
  }

  lemma IncludesTitlesLackBracket()
    ensures '[' !in "Generated Includes Section" && '[' !in "End Generated Includes Section"
  {
  }

  lemma BannerLacksBracket()
    ensures '[' !in HeaderPropertiesBanner && '[' !in DoNotModifyComment
  {
  }

  /** Every placeholder starts with '[' and lacks the '/' every marker block starts with. */
  lemma PlaceholdersLackSlash()
    ensures WidgetNameMarker[0] == '[' && '/' !in WidgetNameMarker
    ensures WidgetSuffixMarker[0] == '[' && '/' !in WidgetSuffixMarker
    ensures WidgetPathMarker[0] == '[' && '/' !in WidgetPathMarker
    ensures HeaderFileNameMarker[0] == '[' && '/' !in HeaderFileNameMarker
  {
  }

  /** The header template's properties block holds no placeholder character. */
  lemma HeaderBlockLacksBracket()
    ensures '[' !in HeaderPropertiesBlock && HeaderPropertiesBlock[0] == '/'
  {
    FixedMarkerPartsLackBracket();
    PropertiesTitlesLackBracket();
    BannerLacksBracket();
    MarkerLacks("Generated Properties Section", '[');
    MarkerLacks("End Generated Properties Section", '[');
  }

  /** The cpp template's includes block holds no placeholder character. */
  lemma CppBlockLacksBracket()
    ensures '[' !in CppIncludesBlock && CppIncludesBlock[0] == '/'
  {
    FixedMarkerPartsLackBracket();
    IncludesTitlesLackBracket();
    BannerLacksBracket();
    MarkerLacks("Generated Includes Section", '[');
    MarkerLacks("End Generated Includes Section", '[');
  }

  /** Replacing one placeholder keeps a block free of placeholder characters where it was. */
  lemma ReplaceKeepsBlock(x: string, m: string, y: string, pat: string, rep: string)
    requires |pat| > 0 && pat[0] == '[' && '/' !in pat
    requires |m| > 0 && m[0] == '/' && '[' !in m
    ensures ReplaceAll(x + m + y, pat, rep) == ReplaceAll(x, pat, rep) + m + ReplaceAll(y, pat, rep)
  {
    ReplaceAllKeeps(x, m, y, pat, rep);
  }

  /** Three placeholder replacements keep a block free of placeholder characters where it was. */
  lemma ThreeReplacementsKeepBlock(top: string, m: string, bottom: string,
                                   p1: string, r1: string, p2: string, r2: string, p3: string, r3: string)
    returns (x: string, y: string)
    requires |m| > 0 && m[0] == '/' && '[' !in m
    requires |p1| > 0 && p1[0] == '[' && '/' !in p1
    requires |p2| > 0 && p2[0] == '[' && '/' !in p2
    requires |p3| > 0 && p3[0] == '[' && '/' !in p3
    ensures ReplaceAll(ReplaceAll(ReplaceAll(top + m + bottom, p1, r1), p2, r2), p3, r3) == x + m + y
  {
    ReplaceKeepsBlock(top, m, bottom, p1, r1);
    x, y := ReplaceAll(top, p1, r1), ReplaceAll(bottom, p1, r1);
    ReplaceKeepsBlock(x, m, y, p2, r2);
    x, y := ReplaceAll(x, p2, r2), ReplaceAll(y, p2, r2);
    ReplaceKeepsBlock(x, m, y, p3, r3);
    x, y := ReplaceAll(x, p3, r3), ReplaceAll(y, p3, r3);
  }

  /** The filled header template is its properties block with filled text on either side. */
  lemma FilledHeaderAroundBlock(widgetName: string, widgetSuffix: string, widgetPath: string, headerFileName: string)
    returns (x: string, y: string)
    ensures FillHeaderTemplate(widgetName, widgetSuffix, widgetPath, headerFileName) == x + HeaderPropertiesBlock + y
  {
    HeaderBlockLacksBracket();
    PlaceholdersLackSlash();
    x, y := ThreeReplacementsKeepBlock(HeaderTemplateTop, HeaderPropertiesBlock, HeaderTemplateBottom,
      WidgetNameMarker, widgetName, WidgetSuffixMarker, widgetSuffix, WidgetPathMarker, widgetPath);
    ReplaceKeepsBlock(x, HeaderPropertiesBlock, y, HeaderFileNameMarker, headerFileName);
    x, y := ReplaceAll(x, HeaderFileNameMarker, headerFileName), ReplaceAll(y, HeaderFileNameMarker, headerFileName);
  }

  /** The filled cpp template is its includes block with filled text on either side. */
  lemma FilledCppAroundBlock(widgetName: string, widgetSuffix: string, headerFileName: string)
    returns (x: string, y: string)
    ensures FillCppTemplate(widgetName, widgetSuffix, headerFileName) == x + CppIncludesBlock + y
  {
    CppBlockLacksBracket();
    PlaceholdersLackSlash();
    x, y := ThreeReplacementsKeepBlock(CppTemplateTop, CppIncludesBlock, CppTemplateBottom,
      WidgetNameMarker, widgetName, WidgetSuffixMarker, widgetSuffix, HeaderFileNameMarker, headerFileName);
  }

  /** Where the properties markers sit in the header template's block. */
  lemma HeaderBlockMarkers()
    ensures OccursAt(HeaderPropertiesBlock, PropertiesSectionStartMarker, 0)
    ensures OccursAt(HeaderPropertiesBlock, PropertiesSectionEndMarker,
                     |PropertiesSectionStartMarker| + 1 + |HeaderPropertiesBanner| + 1)
  {
    var m := HeaderPropertiesBlock;
    var k := |PropertiesSectionStartMarker| + 1 + |HeaderPropertiesBanner| + 1;
    assert m[..|PropertiesSectionStartMarker|] == PropertiesSectionStartMarker;
    assert m[k..k + |PropertiesSectionEndMarker|] == PropertiesSectionEndMarker;
  }

  /** Where the includes markers sit in the cpp template's block. */
  lemma CppBlockMarkers()
    ensures OccursAt(CppIncludesBlock, IncludeSectionStartMarker, 0)
    ensures OccursAt(CppIncludesBlock, IncludeSectionEndMarker,
                     |IncludeSectionStartMarker| + 1 + |DoNotModifyComment| + 2)
  {
    var m := CppIncludesBlock;
    var k := |IncludeSectionStartMarker| + 1 + |DoNotModifyComment| + 2;
    assert m[..|IncludeSectionStartMarker|] == IncludeSectionStartMarker;
    assert m[k..k + |IncludeSectionEndMarker|] == IncludeSectionEndMarker;
  }

  /** Both markers of a block are found in any text that holds the block. */
  lemma MarkersFoundAround(x: string, m: string, y: string, sm: string, i: int, em: string, j: int)
    requires OccursAt(m, sm, i) && OccursAt(m, em, j)
    ensures Find(x + m + y, sm) >= 0 && Find(x + m + y, em) >= 0
  {
    OccursInMiddle(x, m, y, sm, i);
    OccursInMiddle(x, m, y, em, j);
    FindFindsOccurrence(x + m + y, sm, |x| + i);
    FindFindsOccurrence(x + m + y, em, |x| + j);
  }

  /** MarkersFoundAround, for a text known to be assembled around the block. */
  lemma MarkersFoundIn(filled: string, x: string, m: string, y: string, sm: string, i: int, em: string, j: int)
    requires filled == x + m + y && OccursAt(m, sm, i) && OccursAt(m, em, j)
    ensures Find(filled, sm) >= 0 && Find(filled, em) >= 0
  {
    MarkersFoundAround(x, m, y, sm, i, em, j);
  }

  /** Whatever is filled in, the header template still holds both properties markers. */
  lemma FilledHeaderHasMarkers(widgetName: string, widgetSuffix: string, widgetPath: string, headerFileName: string)
    ensures var filled := FillHeaderTemplate(widgetName, widgetSuffix, widgetPath, headerFileName);
      Find(filled, PropertiesSectionStartMarker) >= 0 && Find(filled, PropertiesSectionEndMarker) >= 0
  {
    var x, y := FilledHeaderAroundBlock(widgetName, widgetSuffix, widgetPath, headerFileName);
    HeaderBlockMarkers();
    MarkersFoundIn(FillHeaderTemplate(widgetName, widgetSuffix, widgetPath, headerFileName), x, HeaderPropertiesBlock, y,
      PropertiesSectionStartMarker, 0,
      PropertiesSectionEndMarker, |PropertiesSectionStartMarker| + 1 + |HeaderPropertiesBanner| + 1);
  }

  /** Whatever is filled in, the cpp template still holds both includes markers. */
  lemma FilledCppHasMarkers(widgetName: string, widgetSuffix: string, headerFileName: string)
    ensures var filled := FillCppTemplate(widgetName, widgetSuffix, headerFileName);
      Find(filled, IncludeSectionStartMarker) >= 0 && Find(filled, IncludeSectionEndMarker) >= 0
  {
    var x, y := FilledCppAroundBlock(widgetName, widgetSuffix, headerFileName);
    CppBlockMarkers();
    MarkersFoundIn(FillCppTemplate(widgetName, widgetSuffix, headerFileName), x, CppIncludesBlock, y,
      IncludeSectionStartMarker, 0,
      IncludeSectionEndMarker, |IncludeSectionStartMarker| + 1 + |DoNotModifyComment| + 2);
  }
}
