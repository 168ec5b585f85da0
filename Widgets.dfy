/**
 * Widgets and their classes, and the two queries the generator makes about
 * them (CodeGenerator.cpp): which widgets carry a name the user chose, and
 * which class a generated class ultimately stands for.
 *
 * Classes live in an arena indexed by position. A class generated from a
 * blueprint is marked `generated` (ClassGeneratedBy != nullptr); `parent`
 * is the super class, always at a smaller index, so walking up terminates.
 */
module Widgets {
  import opened Strings

  datatype ClassInfo = ClassInfo(name: string, generated: bool, parent: Option<nat>)

  /** A widget of the tree: its object name and the index of its class. */
  datatype Widget = Widget(name: string, cls: nat)

  predicate ValidArena(classes: seq<ClassInfo>)
  {
    forall i :: 0 <= i < |classes| && classes[i].parent.Some? ==> classes[i].parent.value < i
  }

  predicate WidgetsIn(classes: seq<ClassInfo>, widgets: seq<Widget>)
  {
    forall k :: 0 <= k < |widgets| ==> widgets[k].cls < |classes|
  }

  /** The widgets of a prefix are in the arena when all the widgets are. */
  lemma WidgetsInPrefix(classes: seq<ClassInfo>, widgets: seq<Widget>, n: nat)
    requires WidgetsIn(classes, widgets) && n <= |widgets|
    ensures WidgetsIn(classes, widgets[..n])
  {
    forall k | 0 <= k < n
      ensures widgets[..n][k].cls < |classes|
    {
      assert widgets[..n][k] == widgets[k];
    }
  }

  // ---------------------------------------------------------------------
  // GetFirstNonGeneratedParent

  /** The class `c` followed by its super classes, nearest first. */
  function SuperChain(classes: seq<ClassInfo>, c: nat): (chain: seq<nat>)
    requires ValidArena(classes) && c < |classes|
    ensures |chain| > 0 && chain[0] == c
    ensures forall k :: 0 <= k < |chain| ==> chain[k] < |classes|
    decreases c
  {
    match classes[c].parent
    case None => [c]
    case Some(p) => [c] + SuperChain(classes, p)
  }

  /** The first class up the chain from `c` that is not generated, if any. */
  function NearestNative(classes: seq<ClassInfo>, c: nat): Option<nat>
    requires ValidArena(classes) && c < |classes|
    decreases c
  {
    if !classes[c].generated then Some(c)
    else match classes[c].parent
      case None => None
      case Some(p) => NearestNative(classes, p)
  }

  /** What GetFirstNonGeneratedParent returns: the nearest native class, or `c` itself when there is none. */
  function FirstNonGenerated(classes: seq<ClassInfo>, c: nat): (r: nat)
    requires ValidArena(classes) && c < |classes|
    ensures r < |classes|
  {
    match NearestNative(classes, c)
    case Some(n) => NearestNativeInChain(classes, c); n
    case None => c
  }

  lemma {:induction false} NearestNativeInChain(classes: seq<ClassInfo>, c: nat)
    requires ValidArena(classes) && c < |classes|
    ensures NearestNative(classes, c).Some? ==> NearestNative(classes, c).value < |classes|
    decreases c
  {
    if classes[c].generated && classes[c].parent.Some? {
      NearestNativeInChain(classes, classes[c].parent.value);
    }
  }

  /**
   * When NearestNative finds a class, it is the first class of the super
   * chain that is not generated; `k` is its position in the chain.
   */
  lemma {:induction false} NearestNativeAt(classes: seq<ClassInfo>, c: nat) returns (k: nat)
    requires ValidArena(classes) && c < |classes| && NearestNative(classes, c).Some?
    ensures var chain := SuperChain(classes, c);
      k < |chain| && chain[k] == NearestNative(classes, c).value && !classes[chain[k]].generated &&
      forall j :: 0 <= j < k ==> classes[chain[j]].generated
    decreases c
  {
    if !classes[c].generated {
      k := 0;
    } else {
      var p := classes[c].parent.value;
      var rest := SuperChain(classes, p);
      var k' := NearestNativeAt(classes, p);
      k := k' + 1;
      var chain := SuperChain(classes, c);
      assert chain == [c] + rest;
      forall j | 0 <= j < k ensures classes[chain[j]].generated {
        if j > 0 { assert chain[j] == rest[j - 1]; }
      }
    }
  }

  /** NearestNative finds nothing exactly when every class of the super chain is generated. */
  lemma {:induction false} NoNearestNativeIffAllGenerated(classes: seq<ClassInfo>, c: nat)
    requires ValidArena(classes) && c < |classes|
    ensures NearestNative(classes, c).None? <==>
      forall k :: 0 <= k < |SuperChain(classes, c)| ==> classes[SuperChain(classes, c)[k]].generated
    decreases c
  {
    var chain := SuperChain(classes, c);
    if NearestNative(classes, c).Some? {
      var k := NearestNativeAt(classes, c);
      assert !classes[chain[k]].generated;
    } else if classes[c].parent.None? {
      assert chain == [c];
    } else {
      var p := classes[c].parent.value;
      var rest := SuperChain(classes, p);
      NoNearestNativeIffAllGenerated(classes, p);
      assert NearestNative(classes, p).None?;
      assert forall j :: 0 <= j < |SuperChain(classes, p)| ==> classes[SuperChain(classes, p)[j]].generated;
      assert chain == [c] + rest;
      forall k | 0 <= k < |chain| ensures classes[chain[k]].generated {
        if k > 0 {
          assert chain[k] == rest[k - 1];
        } else {
          assert chain[0] == c && classes[c].generated;
        }
      }
    }
  }

  /**
   * GetFirstNonGeneratedParent returns the nearest class of the super chain,
   * counting the class itself, that is not generated; when every class of
   * the chain is generated it falls back to the class itself.
   */
  lemma FirstNonGeneratedIsNearest(classes: seq<ClassInfo>, c: nat)
    requires ValidArena(classes) && c < |classes|
    ensures var chain, r := SuperChain(classes, c), FirstNonGenerated(classes, c);
      (exists k :: 0 <= k < |chain| && !classes[chain[k]].generated) ==>
        !classes[r].generated &&
        exists k :: 0 <= k < |chain| && chain[k] == r &&
          forall j :: 0 <= j < k ==> classes[chain[j]].generated
    ensures var chain := SuperChain(classes, c);
      (forall k :: 0 <= k < |chain| ==> classes[chain[k]].generated) ==> FirstNonGenerated(classes, c) == c
  {
    NoNearestNativeIffAllGenerated(classes, c);
    if NearestNative(classes, c).Some? {
      var k := NearestNativeAt(classes, c);
    }
  }

  /** CodeGenerator::GetFirstNonGeneratedParent: the `while` walk up the super classes. */
  method GetFirstNonGeneratedParent(classes: seq<ClassInfo>, inputClass: nat) returns (result: nat)
    requires ValidArena(classes) && inputClass < |classes|
    ensures result == FirstNonGenerated(classes, inputClass)
  {
    var current: int := inputClass;  // -1 stands for nullptr
    while current != -1 && classes[current].generated
      invariant -1 <= current < |classes|
      invariant current >= 0 ==> NearestNative(classes, current) == NearestNative(classes, inputClass)
      invariant current == -1 ==> NearestNative(classes, inputClass).None?
      decreases current + 1
    {
      current := match classes[current].parent
        case None => -1
        case Some(p) => p;
    }
    if current == -1 {
      result := inputClass;
    } else {
      result := current;
    }
  }

  // ---------------------------------------------------------------------
  // GetNamedWidgets

  /** The class name an automatic widget name is built from: a generated class loses its "_C". */
  function AutoNameBase(info: ClassInfo): string
  {
    if info.generated && EndsWith(info.name, "_C") then info.name[..|info.name| - 2] else info.name
  }

  /** The widget name without a trailing "_<numeric>". */
  function WithoutNumericSuffix(name: string): string
  {
    var u := FindLastChar(name, '_');
    if u >= 0 && IsNumeric(name[u + 1..]) then name[..u] else name
  }

  /** The editor named this widget itself: "<Class>" or "<Class>_<number>". */
  predicate IsAutoNamed(classes: seq<ClassInfo>, w: Widget)
  {
    w.cls < |classes| && WithoutNumericSuffix(w.name) == AutoNameBase(classes[w.cls])
  }

  /** The widgets GetNamedWidgets keeps, in input order. */
  function NamedWidgets(classes: seq<ClassInfo>, widgets: seq<Widget>): seq<Widget>
  {
    if |widgets| == 0 then []
    else
      var last := widgets[|widgets| - 1];
      NamedWidgets(classes, widgets[..|widgets| - 1]) +
        (if IsAutoNamed(classes, last) then [] else [last])
  }

  /** Extending the prefix by one widget extends the kept widgets by that widget, unless it is auto-named. */
  lemma NamedWidgetsStep(classes: seq<ClassInfo>, widgets: seq<Widget>, i: nat)
    requires i < |widgets|
    ensures NamedWidgets(classes, widgets[..i + 1]) ==
      NamedWidgets(classes, widgets[..i]) + (if IsAutoNamed(classes, widgets[i]) then [] else [widgets[i]])
  {
    assert widgets[..i + 1][..i] == widgets[..i];
  }

  /** The two names the GetNamedWidgets loop compares for one widget, computed as its body does. */
  method ComparedNames(classes: seq<ClassInfo>, widget: Widget) returns (widgetName: string, widgetClassName: string)
    requires widget.cls < |classes|
    ensures widgetName == WithoutNumericSuffix(widget.name)
    ensures widgetClassName == AutoNameBase(classes[widget.cls])
  {
    widgetName := widget.name;
    widgetClassName := classes[widget.cls].name;

    if classes[widget.cls].generated {
      if EndsWith(widgetClassName, "_C") {
        widgetClassName := widgetClassName[..|widgetClassName| - 2];
      }
    }
    assert widgetClassName == AutoNameBase(classes[widget.cls]);

    var underscoreIndex := FindLastChar(widgetName, '_');
    if underscoreIndex >= 0 {
      var rightSide := widgetName[underscoreIndex + 1..];
      if IsNumeric(rightSide) {
        widgetName := widgetName[..underscoreIndex];
      }
    }
  }

  /** CodeGenerator::GetNamedWidgets: keep each widget whose adjusted name differs from its class name. */
  method GetNamedWidgets(classes: seq<ClassInfo>, widgets: seq<Widget>) returns (namedWidgets: seq<Widget>)
    requires WidgetsIn(classes, widgets)
    ensures namedWidgets == NamedWidgets(classes, widgets)
  {
    namedWidgets := [];
    var i := 0;
    while i < |widgets|
      invariant 0 <= i <= |widgets|
      invariant namedWidgets == NamedWidgets(classes, widgets[..i])
    {
      var widget := widgets[i];
      var widgetName, widgetClassName := ComparedNames(classes, widget);
      if widgetName != widgetClassName {
        namedWidgets := namedWidgets + [widget];
      }
      NamedWidgetsStep(classes, widgets, i);
      i := i + 1;
    }
    assert widgets[..i] == widgets;
  }

  /** GetNamedWidgets keeps exactly the widgets that are not auto-named. */
  lemma {:induction false} NamedWidgetsMembership(classes: seq<ClassInfo>, widgets: seq<Widget>, w: Widget)
    ensures w in NamedWidgets(classes, widgets) <==> w in widgets && !IsAutoNamed(classes, w)
    decreases |widgets|
  {
    if |widgets| > 0 {
      var init := widgets[..|widgets| - 1];
      NamedWidgetsMembership(classes, init, w);
      assert widgets == init + [widgets[|widgets| - 1]];
    }
  }

  /** The widgets GetNamedWidgets keeps are widgets of the arena when all the input widgets are. */
  lemma NamedWidgetsIn(classes: seq<ClassInfo>, widgets: seq<Widget>)
    requires WidgetsIn(classes, widgets)
    ensures WidgetsIn(classes, NamedWidgets(classes, widgets))
  {
    var named := NamedWidgets(classes, widgets);
    forall k | 0 <= k < |named|
      ensures named[k].cls < |classes|
    {
      NamedWidgetsMembership(classes, widgets, named[k]);
    }
  }

  /** Filtering keeps the input order: it distributes over concatenation. */
  lemma {:induction false} NamedWidgetsAppend(classes: seq<ClassInfo>, a: seq<Widget>, b: seq<Widget>)
    ensures NamedWidgets(classes, a + b) == NamedWidgets(classes, a) + NamedWidgets(classes, b)
    decreases |b|
  {
    if |b| == 0 {
      assert a + b == a;
    } else {
      var binit := b[..|b| - 1];
      NamedWidgetsAppend(classes, a, binit);
      assert (a + b)[..|a + b| - 1] == a + binit;
    }
  }

  // Examples of the automatic-name test, on a native Button class and a
  // widget blueprint class WBP_Menu_C derived from it.

  /** The name the editor gives the first Button is automatic. */
  lemma PlainClassNameIsAutomatic()
    ensures IsAutoNamed([ClassInfo("Button", false, None)], Widget("Button", 0))
  {
    assert FindLastChar("Button", '_') == -1;
  }

  /** A numbered copy, "Button_3", is automatic. */
  lemma NumberedClassNameIsAutomatic()
    ensures IsAutoNamed([ClassInfo("Button", false, None)], Widget("Button_3", 0))
  {
    assert FindLastChar("Button_3", '_') == 6;
    assert "Button_3"[7..] == "3";
    assert "Button_3"[..6] == "Button";
  }

  /** A suffix that is not a number makes the name the user's: "Button_3x". */
  lemma NonNumericSuffixIsUserNamed()
    ensures !IsAutoNamed([ClassInfo("Button", false, None)], Widget("Button_3x", 0))
  {
    assert FindLastChar("Button_3x", '_') == 6;
    assert "Button_3x"[7..] == "3x";
    assert !DigitsWithOneDot("3x") by {
      assert "3x"[1] == 'x';
    }
    assert !IsNumeric("3x");
    assert WithoutNumericSuffix("Button_3x") == "Button_3x";
  }

  /** Any other name is the user's: "SubmitButton". */
  lemma OtherNameIsUserNamed()
    ensures !IsAutoNamed([ClassInfo("Button", false, None)], Widget("SubmitButton", 0))
  {
    assert '_' !in "SubmitButton";
  }

  /** For a blueprint class the "_C" is dropped first: "WBP_Menu_12" of class WBP_Menu_C is automatic. */
  lemma BlueprintClassNameIsAutomatic()
    ensures IsAutoNamed([ClassInfo("Button", false, None), ClassInfo("WBP_Menu_C", true, Some(0))], Widget("WBP_Menu_12", 1))
  {
    assert EndsWith("WBP_Menu_C", "_C");
    assert "WBP_Menu_C"[..8] == "WBP_Menu";
    assert FindLastChar("WBP_Menu_12", '_') == 8;
    assert "WBP_Menu_12"[9..] == "12";
    assert "WBP_Menu_12"[..8] == "WBP_Menu";
  }
}
