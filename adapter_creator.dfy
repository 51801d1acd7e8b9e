/**
 * CovRecyclerAdapterCreatorDialog: derives the item layout name from the adapter name,
 * validates the adapter, layout and POJO names, and creates the adapter class and its item
 * layout.
 */
module AdapterCreator {
  import opened Wrappers
  import opened JavaStrings
  import opened Names
  import opened Paths
  import opened Workspace
  import opened CreatorRules
  import opened FileCreation

  // ---------------------------------------------------------------------------
  // Derived name
  // ---------------------------------------------------------------------------

  /** The names checkAdapterName removes from the translated adapter name, in order. */
  const Removed := ["_recycler", "_adapter"]

  /** checkAdapterName's layout name: the translated name without `_recycler` and `_adapter`,
      whitespace and `_` runs, behind `recycler` and one `_`, then `_item`. */
  function DefaultLayoutName(adapterName: string): string {
    WithKind("recycler", LayoutStem(adapterName, Removed)) + "_item"
  }

  /** Proof helper, not a property of the plugin:
      what the name rules say of the fixed parts `recycler` and `_item`. */
  lemma {:induction false} FixedNameParts()
    ensures |"recycler"| > 0 && forall i :: 0 <= i < |"recycler"| ==> 'a' <= "recycler"[i] <= 'z'
    ensures NoDoubleUnderscore("recycler") && NoDoubleUnderscore("_item") && MatchesName("_item")
  {
  }

  /** Proof helper, not a property of the plugin:
      a name ending in `_item` is not blank. */
  lemma {:induction false} ItemNameNotBlank(w: string)
    ensures !IsBlank(w + "_item")
  {
    var d := w + "_item";
    assert d[|d| - 1] == 'm';
  }

  /** The default layout name starts with `recycler_` and ends with `_item`, and passes
      checkLayoutName when the adapter name holds only name and `\s` characters. */
  lemma {:induction false} DefaultLayoutNameShape(adapterName: string)
    ensures var d := DefaultLayoutName(adapterName);
      StartsWith(d, "recycler_") && EndsWith(d, "_item")
    ensures (forall i :: 0 <= i < |adapterName| ==> NameOrSpace(adapterName[i])) ==>
      MatchesName(DefaultLayoutName(adapterName))
  {
    var stem := LayoutStem(adapterName, Removed);
    var w := WithKind("recycler", stem);
    var d := w + "_item";
    WithKindShape("recycler", stem);
    assert d[..9] == w[..9] == "recycler_";
    assert d[|d| - 5..] == "_item";
    if forall i :: 0 <= i < |adapterName| ==> NameOrSpace(adapterName[i]) {
      LayoutStemChars(adapterName, Removed);
      FixedNameParts();
      WithKindMatches("recycler", stem);
      MatchesAppend(w, "_item");
    }
  }

  /** `_item` behind a name that has no `__` and does not start with `_` leaves a name with a
      binding class exactly when the name does not end in `_`. */
  lemma {:induction false} ItemSuffixBinding(w: string)
    requires |w| > 0 && w[0] != '_' && NoDoubleUnderscore(w)
    ensures LayoutToBindings(w + "_item").Some? <==> w[|w| - 1] != '_'
  {
    var d := w + "_item";
    if w[|w| - 1] != '_' {
      FixedNameParts();
      NoDoubleUnderscoreAppend(w, "_item");
      BindingOfSimpleName(d);
    } else {
      var p := |w|;
      assert d[p] == '_' && d[p - 1] == '_' && d[p + 1] == 'i';
      assert EmptySegmentAt(d, p, p + 1);
      LayoutToBindingsDefined(d);
    }
  }

  /** Unlike the other dialogs' default names, this one has a binding class name only when
      the stem is non-empty and does not end in `_`: otherwise `_item` follows a `_` and
      layoutToBindings meets an empty segment (an adapter named `My_Adapter` yields
      `recycler_my__item`). */
  lemma {:induction false} DefaultLayoutNameBinding(adapterName: string)
    ensures var stem := LayoutStem(adapterName, Removed);
      LayoutToBindings(DefaultLayoutName(adapterName)).Some? <==> |stem| > 0 && stem[|stem| - 1] != '_'
  {
    var stem := LayoutStem(adapterName, Removed);
    var w := WithKind("recycler", stem);
    assert NoDoubleUnderscore(stem);
    FixedNameParts();
    WithKindShape("recycler", stem);
    var rest := if StartsWith(stem, "_") then stem[1..] else stem;
    assert w == "recycler_" + rest;
    assert w[0] == 'r';
    if |stem| > 0 && stem[|stem| - 1] != '_' {
      assert |rest| > 0 && w[|w| - 1] == stem[|stem| - 1];
    } else {
      assert w[|w| - 1] == '_';
    }
    ItemSuffixBinding(w);
  }

  // ---------------------------------------------------------------------------
  // Generated text
  // ---------------------------------------------------------------------------

  const AdapterImport := ImportLine("com.kk.android.comvvmhelper.ui.BaseRecyclerViewAdapter")
  const HolderImport := ImportLine("com.kk.android.comvvmhelper.ui.BaseRecyclerViewHolder")

  /** The adapter's type argument: the POJO name, or `Any` when it is blank. */
  function TypeArgument(pojo: string): string {
    if IsBlank(pojo) then "Any" else pojo
  }

  /** The `layoutId` override, which takes the view type. */
  function AdapterLayoutIdLine(layoutName: string): string {
    "    " + "override fun layoutId(viewType: Int) = R.layout." + layoutName + "\n"
  }

  /** The `setVariable` override for items of type `typeArg`. */
  function SetVariableLine(typeArg: string): string {
    "    " + "override fun setVariable(data: " + typeArg + ", holder: BaseRecyclerViewHolder, dataPosition: Int, layoutPosition: Int) {\n"
  }

  /** The line that fetches the item's binding. */
  function ViewDataBindingLine(binding: string): string {
    "        " + "holder.viewDataBinding<" + binding + ">()?.run {\n"
  }

  /** The package line, a blank line and the imports. */
  function AdapterImports(packageName: Option<string>, appPkg: string, hilt: bool, binding: string): seq<string> {
    ["package " + JavaText(packageName) + "\n", "\n", AdapterImport, HolderImport]
    + (if IsBlank(appPkg) then [] else [ImportLine(appPkg + ".R"), ImportLine(appPkg + ".databinding." + binding)])
    + (if hilt then [InjectImport] else [])
  }

  /** A blank line and the class. */
  function AdapterBody(className: string, layoutName: string, pojo: string, hilt: bool, binding: string): seq<string> {
    ["\n", ClassHeader(className, hilt, "BaseRecyclerViewAdapter", TypeArgument(pojo)), "\n",
     AdapterLayoutIdLine(layoutName), "\n",
     SetVariableLine(TypeArgument(pojo)), ViewDataBindingLine(binding), "\n", "        }\n", MethodEnd, ClassEnd]
  }

  /** adapterClassFileModel, line by line, for the binding class name `binding`. */
  function AdapterClassLines(packageName: Option<string>, className: string, layoutName: string, appPkg: string,
                             pojo: string, hilt: bool, binding: string): seq<string>
  {
    AdapterImports(packageName, appPkg, hilt, binding) + AdapterBody(className, layoutName, pojo, hilt, binding)
  }

  /** adapterClassFileModel; `None` when layoutToBindings throws for the layout name. */
  function AdapterClassText(packageName: Option<string>, className: string, layoutName: string, appPkg: string,
                            pojo: string, hilt: bool): Option<string>
  {
    match LayoutToBindings(layoutName)
    case None => None
    case Some(binding) => Some(Concat(AdapterClassLines(packageName, className, layoutName, appPkg, pojo, hilt, binding)))
  }

  /** adapterLayoutModel: an item layout that wraps its content. */
  function AdapterLayout(): string {
    BindingLayout("wrap_content")
  }

  /** Proof helper, not a property of the plugin:
      the distinguishing characters of the lines of the adapter class. */
  lemma {:induction false} AdapterMarks(packageName: Option<string>, appPkg: string, binding: string)
    ensures AdapterImport[0] == 'i' && AdapterImport[|AdapterImport| - 2] == 'r'
    ensures HolderImport[0] == 'i' && HolderImport[|HolderImport| - 2] == 'r'
    ensures var pkgLine := "package " + JavaText(packageName) + "\n"; pkgLine[0] == 'p'
    ensures var rImport := ImportLine(appPkg + ".R"); rImport[0] == 'i' && rImport[|rImport| - 2] == 'R'
    ensures var bindingImport := ImportLine(appPkg + ".databinding." + binding);
      bindingImport[0] == 'i' && (EndsWith(binding, "Binding") ==> bindingImport[|bindingImport| - 2] == 'g')
  {
    if EndsWith(binding, "Binding") {
      assert binding[|binding| - 1] == 'g';
    }
  }

  /** No line of the class starts like an import. */
  lemma {:induction false} AdapterBodyMarks(className: string, layoutName: string, pojo: string, hilt: bool, binding: string)
    ensures var body := AdapterBody(className, layoutName, pojo, hilt, binding);
      forall i | 0 <= i < |body| :: |body[i]| > 0 && body[i][0] != 'i'
  {
    FixedMarks();
    var header := ClassHeader(className, hilt, "BaseRecyclerViewAdapter", TypeArgument(pojo));
    assert header[0] == 'c';
    assert AdapterLayoutIdLine(layoutName)[0] == ' ' && SetVariableLine(TypeArgument(pojo))[0] == ' ';
    assert ViewDataBindingLine(binding)[0] == ' ';
  }

  /** The `javax.inject.Inject` import appears exactly when Hilt is checked. */
  lemma {:induction false} AdapterHiltImportFlag(packageName: Option<string>, className: string, layoutName: string, appPkg: string,
                                                 pojo: string, hilt: bool, binding: string)
    requires EndsWith(binding, "Binding")
    ensures InjectImport in AdapterClassLines(packageName, className, layoutName, appPkg, pojo, hilt, binding) <==> hilt
  {
    FixedMarks();
    AdapterMarks(packageName, appPkg, binding);
    AdapterBodyMarks(className, layoutName, pojo, hilt, binding);
    NotInByFirstChar(InjectImport, AdapterBody(className, layoutName, pojo, hilt, binding));
  }

  /** Hilt changes nothing but the `Inject` import after the other imports and the class
      header, which gains ` @Inject constructor()` (InjectConstructorInserted). */
  lemma {:induction false} AdapterHiltOnlyAddsInject(packageName: Option<string>, className: string, layoutName: string,
                                                     appPkg: string, pojo: string, binding: string)
    ensures var on, off := AdapterClassLines(packageName, className, layoutName, appPkg, pojo, true, binding),
                           AdapterClassLines(packageName, className, layoutName, appPkg, pojo, false, binding);
      var k := |AdapterImports(packageName, appPkg, false, binding)|;
      k + 1 < |off| && off[k + 1] == ClassHeader(className, false, "BaseRecyclerViewAdapter", TypeArgument(pojo)) &&
      on == off[..k] + [InjectImport] + off[k..][1 := ClassHeader(className, true, "BaseRecyclerViewAdapter", TypeArgument(pojo))]
  {
    var imports := AdapterImports(packageName, appPkg, false, binding);
    var bodyOff := AdapterBody(className, layoutName, pojo, false, binding);
    var off := imports + bodyOff;
    assert off[..|imports|] == imports && off[|imports|..] == bodyOff;
    assert AdapterImports(packageName, appPkg, true, binding) == imports + [InjectImport];
    assert AdapterBody(className, layoutName, pojo, true, binding) ==
      bodyOff[1 := ClassHeader(className, true, "BaseRecyclerViewAdapter", TypeArgument(pojo))];
  }

  /** The `R` import appears exactly when `appPkg` is non-blank. */
  lemma {:induction false} AdapterRImportFlag(packageName: Option<string>, className: string, layoutName: string, appPkg: string,
                                              pojo: string, hilt: bool, binding: string)
    requires EndsWith(binding, "Binding")
    ensures ImportLine(appPkg + ".R") in AdapterClassLines(packageName, className, layoutName, appPkg, pojo, hilt, binding)
      <==> !IsBlank(appPkg)
  {
    FixedMarks();
    AdapterMarks(packageName, appPkg, binding);
    AdapterBodyMarks(className, layoutName, pojo, hilt, binding);
    NotInByFirstChar(ImportLine(appPkg + ".R"), AdapterBody(className, layoutName, pojo, hilt, binding));
  }

  /** The binding import appears exactly when `appPkg` is non-blank. */
  lemma {:induction false} AdapterBindingImportFlag(packageName: Option<string>, className: string, layoutName: string,
                                                    appPkg: string, pojo: string, hilt: bool, binding: string)
    requires EndsWith(binding, "Binding")
    ensures (ImportLine(appPkg + ".databinding." + binding) in
               AdapterClassLines(packageName, className, layoutName, appPkg, pojo, hilt, binding))
      <==> !IsBlank(appPkg)
  {
    FixedMarks();
    AdapterMarks(packageName, appPkg, binding);
    AdapterBodyMarks(className, layoutName, pojo, hilt, binding);
    NotInByFirstChar(ImportLine(appPkg + ".databinding." + binding), AdapterBody(className, layoutName, pojo, hilt, binding));
  }

  /** The binding class fetched in `setVariable` is the layout's binding class, and
      `layoutId` names the layout. */
  lemma {:induction false} AdapterBindingUse(packageName: Option<string>, className: string, layoutName: string, appPkg: string,
                                             pojo: string, hilt: bool, binding: string)
    ensures var lines := AdapterClassLines(packageName, className, layoutName, appPkg, pojo, hilt, binding);
      ViewDataBindingLine(binding) in lines && AdapterLayoutIdLine(layoutName) in lines
  {
    var body := AdapterBody(className, layoutName, pojo, hilt, binding);
    assert body[3] == AdapterLayoutIdLine(layoutName) && body[6] == ViewDataBindingLine(binding);
  }

  /** A blank POJO name puts `Any` in both the class header and `setVariable`; otherwise the
      POJO name stands in both. */
  lemma {:induction false} AdapterTypeArgument(packageName: Option<string>, className: string, layoutName: string, appPkg: string,
                                               pojo: string, hilt: bool, binding: string)
    ensures var lines := AdapterClassLines(packageName, className, layoutName, appPkg, pojo, hilt, binding);
      var t := if IsBlank(pojo) then "Any" else pojo;
      ClassHeader(className, hilt, "BaseRecyclerViewAdapter", t) in lines && SetVariableLine(t) in lines
  {
    var body := AdapterBody(className, layoutName, pojo, hilt, binding);
    assert body[1] == ClassHeader(className, hilt, "BaseRecyclerViewAdapter", TypeArgument(pojo));
    assert body[5] == SetVariableLine(TypeArgument(pojo));
  }

  // ---------------------------------------------------------------------------
  // createFiles
  // ---------------------------------------------------------------------------

  /** The dialog's fields that createFiles reads. */
  datatype AdapterFields = AdapterFields(packageName: Option<string>, adapterName: string, layoutName: string,
                                         pojoName: string, hilt: bool)

  /** What createFiles creates and writes, with `appPkg` for Utils.appPackage of the class
      file: the class and the item layout, no ViewModel and no manifest entry. */
  function AdapterPlan(f: AdapterFields, appPkg: string): Plan {
    Plan(f.adapterName, f.layoutName, None,
         AdapterClassText(f.packageName, f.adapterName, f.layoutName, appPkg, f.pojoName, f.hilt),
         AdapterLayout(), "", None)
  }

  // ---------------------------------------------------------------------------
  // The dialog
  // ---------------------------------------------------------------------------

  class AdapterCreatorDialog {
    /** mDirectory: where the class file is created. */
    const directory: AbsPath
    var packageName: Option<string>
    /** The package combo box items. */
    var packageItems: seq<string>
    var adapterName: string
    var layoutName: string
    var pojoName: string
    var hilt: bool
    /** errorHint and the OK button. */
    const feedback: Feedback

    /** The constructor with findMatchedPkgList's result `pkgList`, and createCenterPanel's
        disabled OK button; the error label starts as the GUI form lays it out. */
    constructor(directory: AbsPath, pkgList: seq<string>, formHintVisible: bool, formHintText: string)
      ensures this.directory == directory
      ensures packageName == InitialPackage(pkgList) && packageItems == pkgList
      ensures adapterName == "" && layoutName == "" && pojoName == "" && !hilt
      ensures fresh(feedback) && !feedback.okEnabled
      ensures feedback.hintVisible == formHintVisible && feedback.hintText == formHintText
    {
      this.directory := directory;
      packageName := InitialPackage(pkgList);
      packageItems := pkgList;
      adapterName := "";
      layoutName := "";
      pojoName := "";
      hilt := false;
      feedback := new Feedback(formHintVisible, formHintText);
    }

    function Fields(): AdapterFields
      reads this
    {
      AdapterFields(packageName, adapterName, layoutName, pojoName, hilt)
    }

    /** The package combo box listener: the selected item becomes the package. */
    method SelectPackage(item: string)
      requires item in packageItems
      modifies this`packageName
      ensures packageName == Some(item)
    {
      packageName := Some(item);
    }

    /** The Hilt check box. */
    method SetHilt(selected: bool)
      modifies this`hilt
      ensures hilt == selected
    {
      hilt := selected;
    }

    /** checkAdapterName after the adapter name field changed to `text`: fill in the derived
        layout name and validate the adapter name. OK ends up enabled exactly when the name
        matches the pattern. */
    method CheckAdapterName(text: string)
      modifies this`adapterName, this`layoutName, feedback
      ensures adapterName == text && layoutName == DefaultLayoutName(text)
      ensures feedback.okEnabled <==> MatchesName(text)
      ensures !feedback.hintVisible <==> MatchesName(text)
      ensures !MatchesName(text) ==> feedback.hintText == "Not validate class name"
    {
      adapterName := text;
      var translated := TransClassNameToLayoutName(text);
      var stem := CollapseUnderscores(RemoveWhitespace(RemoveEach(translated, Removed)));
      var kindName := WithKind("recycler", stem);
      layoutName := kindName + "_item";
      ItemNameNotBlank(kindName);
      feedback.Show(CheckName(text, !IsBlank(layoutName), "Not validate class name"));
    }

    /** checkLayoutName after the layout name field changed to `text`. */
    method CheckLayoutName(text: string)
      modifies this`layoutName, feedback
      ensures layoutName == text
      ensures feedback.okEnabled <==> MatchesName(text) && !IsBlank(adapterName)
      ensures !feedback.hintVisible <==> MatchesName(text)
      ensures !MatchesName(text) ==> feedback.hintText == "Not validate layout name"
    {
      layoutName := text;
      feedback.Show(CheckName(text, !IsBlank(adapterName), "Not validate layout name"));
    }

    /** checkPojoName after the POJO name field changed to `text`: the empty name is
        accepted, and then OK needs both other names non-blank. */
    method CheckPojoName(text: string)
      modifies this`pojoName, feedback
      ensures pojoName == text
      ensures feedback.okEnabled <==> (text == "" || MatchesName(text)) && !IsBlank(adapterName) && !IsBlank(layoutName)
      ensures !feedback.hintVisible <==> text == "" || MatchesName(text)
      ensures feedback.hintVisible ==> feedback.hintText == "Not validate pojo class name"
    {
      pojoName := text;
      feedback.Show(CheckOptionalName(text, !IsBlank(adapterName) && !IsBlank(layoutName), "Not validate pojo class name"));
    }

    /** createFiles with `appPkg` for Utils.appPackage of the class file. */
    method CreateFiles(fs: FileSystem, appPkg: string) returns (outcome: Outcome)
      modifies fs
      ensures Effect(outcome, fs.files) == Creation(old(fs.files), old(fs.dirs), directory, AdapterPlan(Fields(), appPkg))
      ensures fs.dirs == old(fs.dirs)
    {
      outcome := FileCreation.CreateFiles(fs, directory, AdapterPlan(Fields(), appPkg));
    }
  }
}
