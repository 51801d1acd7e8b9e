/**
 * CovFragmentCreatorDialog: derives the layout name from the fragment name, validates the
 * two names, and creates the fragment class and its layout.
 */
module FragmentCreator {
  import opened Wrappers
  import opened JavaStrings
  import opened Names
  import opened Paths
  import opened Workspace
  import opened CreatorRules
  import opened FileCreation

  // ---------------------------------------------------------------------------
  // Derived name
  // ---------------------------------------------------------------------------

  /** checkFragmentName's layout name: the translated name without `_fragment`, whitespace and
      `_` runs, behind `fragment` and one `_`. */
  function DefaultLayoutName(fragmentName: string): string {
    WithKind("fragment", LayoutStem(fragmentName, ["_fragment"]))
  }

  /** The default layout name starts with `fragment_`, has no `__`, always has a binding class
      name, and passes checkLayoutName when the fragment name holds only name and `\s`
      characters. */
  lemma {:induction false} DefaultLayoutNameShape(fragmentName: string)
    ensures var d := DefaultLayoutName(fragmentName);
      StartsWith(d, "fragment_") && NoDoubleUnderscore(d) && LayoutToBindings(d).Some?
    ensures (forall i :: 0 <= i < |fragmentName| ==> NameOrSpace(fragmentName[i])) ==>
      MatchesName(DefaultLayoutName(fragmentName))
  {
    DefaultLayoutShape("fragment", fragmentName, ["_fragment"]);
  }

  // ---------------------------------------------------------------------------
  // Generated text
  // ---------------------------------------------------------------------------

  const BaseFragmentImport := ImportLine("com.kk.android.comvvmhelper.ui.BaseFragment")
  const InitFragment := "    " + "override fun initFragment(view: View, savedInstanceState: Bundle?) {\n"

  /** The package line and the imports every fragment has: unlike the other templates, no
      blank line follows the package line. */
  function FragmentImports(packageName: Option<string>): seq<string> {
    ["package " + JavaText(packageName) + "\n", BundleImport, ViewImport, BaseFragmentImport]
  }

  /** The class, for the binding class name `binding`. */
  function FragmentClass(className: string, layoutName: string, hilt: bool, binding: string): seq<string> {
    [ClassHeader(className, hilt, "BaseFragment", binding), "\n", LayoutIdLine(layoutName), "\n", InitFragment, "\n",
     MethodEnd, ClassEnd]
  }

  /** fragmentClassFileModel, line by line, for the binding class name `binding`. */
  function FragmentClassLines(packageName: Option<string>, className: string, layoutName: string, hilt: bool,
                              binding: string): seq<string>
  {
    WithHilt(FragmentImports(packageName), hilt, FragmentClass(className, layoutName, hilt, binding))
  }

  /** fragmentClassFileModel; `None` when layoutToBindings throws for the layout name. */
  function FragmentClassText(packageName: Option<string>, className: string, layoutName: string, hilt: bool): Option<string> {
    match LayoutToBindings(layoutName)
    case None => None
    case Some(binding) => Some(Concat(FragmentClassLines(packageName, className, layoutName, hilt, binding)))
  }

  /** fragmentLayoutModel: the same text whatever the fragment's fields. */
  function FragmentLayout(): string {
    BindingLayout("match_parent")
  }

  /** The generated text opens with the package line directly followed by the `Bundle`
      import. */
  lemma {:induction false} PackageThenImport(packageName: Option<string>, className: string, layoutName: string, hilt: bool,
                                             binding: string)
    ensures StartsWith(Concat(FragmentClassLines(packageName, className, layoutName, hilt, binding)),
                       "package " + JavaText(packageName) + "\n" + BundleImport)
  {
    var lines := FragmentClassLines(packageName, className, layoutName, hilt, binding);
    ConcatFirstTwo(lines);
  }

  /** No line of the class starts like an import or with `@`. */
  lemma {:induction false} FragmentClassMarks(className: string, layoutName: string, hilt: bool, binding: string)
    ensures var cls := FragmentClass(className, layoutName, hilt, binding);
      forall i | 0 <= i < |cls| :: |cls[i]| > 0 && cls[i][0] != 'i' && cls[i][0] != '@'
  {
    FixedMarks();
    var header := ClassHeader(className, hilt, "BaseFragment", binding);
    var layoutId := LayoutIdLine(layoutName);
    assert header[0] == 'c' && layoutId[0] == ' ' && InitFragment[0] == ' ';
  }

  /** Hilt's imports and `@AndroidEntryPoint` appear exactly when Hilt is checked; the class
      header carries ` @Inject constructor()` exactly then (InjectConstructorInserted). */
  lemma {:induction false} FragmentHiltFlags(packageName: Option<string>, className: string, layoutName: string, hilt: bool,
                                             binding: string)
    ensures var lines := FragmentClassLines(packageName, className, layoutName, hilt, binding);
      (HiltEntryPointImport in lines <==> hilt) && (InjectImport in lines <==> hilt) && (EntryPointAnnotation in lines <==> hilt)
  {
    FixedMarks();
    var imports, cls := FragmentImports(packageName), FragmentClass(className, layoutName, hilt, binding);
    var pkgLine := "package " + JavaText(packageName) + "\n";
    assert pkgLine[0] == 'p';
    assert ViewImport[|ViewImport| - 2] == 'w' && BaseFragmentImport[|BaseFragmentImport| - 2] == 't';
    assert BaseFragmentImport[|BaseFragmentImport| - 3] == 'n' && BaseFragmentImport[|BaseFragmentImport| - 4] == 'e';
    assert HiltEntryPointImport[|HiltEntryPointImport| - 4] == 'i';
    assert HiltEntryPointImport !in imports && InjectImport !in imports && EntryPointAnnotation !in imports;
    FragmentClassMarks(className, layoutName, hilt, binding);
    NotInByFirstChar(HiltEntryPointImport, cls);
    NotInByFirstChar(InjectImport, cls);
    NotInByFirstChar(EntryPointAnnotation, cls);
    WithHiltFlags(imports, hilt, cls);
  }

  /** The class extends `BaseFragment` of the binding class, with the Hilt constructor when
      Hilt is checked, and `layoutId` names the layout resource. */
  lemma {:induction false} FragmentBindingUse(packageName: Option<string>, className: string, layoutName: string, hilt: bool,
                                              binding: string)
    ensures var lines := FragmentClassLines(packageName, className, layoutName, hilt, binding);
      ClassHeader(className, hilt, "BaseFragment", binding) in lines && LayoutIdLine(layoutName) in lines
  {
    var cls := FragmentClass(className, layoutName, hilt, binding);
    assert cls[0] == ClassHeader(className, hilt, "BaseFragment", binding) && cls[2] == LayoutIdLine(layoutName);
  }

  // ---------------------------------------------------------------------------
  // createFiles
  // ---------------------------------------------------------------------------

  /** The fragment dialog's fields that createFiles reads. */
  datatype FragmentFields = FragmentFields(packageName: Option<string>, fragmentName: string, layoutName: string, hilt: bool)

  /** What createFiles creates and writes: the class and the layout, no ViewModel and no
      manifest entry. */
  function FragmentPlan(f: FragmentFields): Plan {
    Plan(f.fragmentName, f.layoutName, None, FragmentClassText(f.packageName, f.fragmentName, f.layoutName, f.hilt),
         FragmentLayout(), "", None)
  }

  // ---------------------------------------------------------------------------
  // The dialog
  // ---------------------------------------------------------------------------

  class FragmentCreatorDialog {
    /** mDirectory: where the class file is created. */
    const directory: AbsPath
    var packageName: Option<string>
    /** The package combo box items. */
    var packageItems: seq<string>
    var fragmentName: string
    var layoutName: string
    var hilt: bool
    /** errorHint and the OK button. */
    const feedback: Feedback

    /** The constructor with findMatchedPkgList's result `pkgList`, and createCenterPanel's
        disabled OK button; the error label starts as the GUI form lays it out. */
    constructor(directory: AbsPath, pkgList: seq<string>, formHintVisible: bool, formHintText: string)
      ensures this.directory == directory
      ensures packageName == InitialPackage(pkgList) && packageItems == pkgList
      ensures fragmentName == "" && layoutName == "" && !hilt
      ensures fresh(feedback) && !feedback.okEnabled
      ensures feedback.hintVisible == formHintVisible && feedback.hintText == formHintText
    {
      this.directory := directory;
      packageName := InitialPackage(pkgList);
      packageItems := pkgList;
      fragmentName := "";
      layoutName := "";
      hilt := false;
      feedback := new Feedback(formHintVisible, formHintText);
    }

    function Fields(): FragmentFields
      reads this
    {
      FragmentFields(packageName, fragmentName, layoutName, hilt)
    }

    /** The package combo box listener: the selected item becomes the package. */
    method SelectPackage(item: string)
      requires item in packageItems
      modifies this`packageName
      ensures packageName == Some(item)
    {
      packageName := Some(item);
    }

    /** The Hilt check box. */
    method SetHilt(selected: bool)
      modifies this`hilt
      ensures hilt == selected
    {
      hilt := selected;
    }

    /** checkFragmentName after the fragment name field changed to `text`: fill in the derived
        layout name and validate the fragment name. OK ends up enabled exactly when the name
        matches the pattern. */
    method CheckFragmentName(text: string)
      modifies this`fragmentName, this`layoutName, feedback
      ensures fragmentName == text && layoutName == DefaultLayoutName(text)
      ensures feedback.okEnabled <==> MatchesName(text)
      ensures !feedback.hintVisible <==> MatchesName(text)
      ensures !MatchesName(text) ==> feedback.hintText == "Not validate class name"
    {
      fragmentName := text;
      var translated := TransClassNameToLayoutName(text);
      var stem := CollapseUnderscores(RemoveWhitespace(Replace(translated, "_fragment", "")));
      layoutName := (if StartsWith(stem, "_") then "fragment" else "fragment_") + stem;
      DefaultLayoutNameShape(text);
      assert layoutName[0] == 'f' && !IsBlank(layoutName);
      feedback.Show(CheckName(text, !IsBlank(layoutName), "Not validate class name"));
    }

    /** checkLayoutName after the layout name field changed to `text`. */
    method CheckLayoutName(text: string)
      modifies this`layoutName, feedback
      ensures layoutName == text
      ensures feedback.okEnabled <==> MatchesName(text) && !IsBlank(fragmentName)
      ensures !feedback.hintVisible <==> MatchesName(text)
      ensures !MatchesName(text) ==> feedback.hintText == "Not validate layout name"
    {
      layoutName := text;
      feedback.Show(CheckName(text, !IsBlank(fragmentName), "Not validate layout name"));
    }

    /** createFiles: the class file, the layout file or the rollback, then the two texts. */
    method CreateFiles(fs: FileSystem) returns (outcome: Outcome)
      modifies fs
      ensures Effect(outcome, fs.files) == Creation(old(fs.files), old(fs.dirs), directory, FragmentPlan(Fields()))
      ensures fs.dirs == old(fs.dirs)
    {
      outcome := FileCreation.CreateFiles(fs, directory, FragmentPlan(Fields()));
    }
  }
}
