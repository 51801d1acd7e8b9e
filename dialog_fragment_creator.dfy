/**
 * CovDialogFragmentCreatorDialog: derives the layout name from the dialog name, validates the
 * two names, and creates the dialog fragment class and its layout.
 */
module DialogFragmentCreator {
  import opened Wrappers
  import opened JavaStrings
  import opened Names
  import opened Paths
  import opened Workspace
  import opened CreatorRules
  import opened FileCreation

  // ---------------------------------------------------------------------------
  // Derived name
  // ---------------------------------------------------------------------------

  /** checkDialogName's layout name: the translated name without `_dialog`, whitespace and
      `_` runs, behind `dialog` and one `_`. */
  function DefaultLayoutName(dialogName: string): string {
    WithKind("dialog", LayoutStem(dialogName, ["_dialog"]))
  }

  /** The default layout name starts with `dialog_`, has no `__`, always has a binding class
      name, and passes checkLayoutName when the dialog name holds only name and `\s`
      characters. */
  lemma {:induction false} DefaultLayoutNameShape(dialogName: string)
    ensures var d := DefaultLayoutName(dialogName);
      StartsWith(d, "dialog_") && NoDoubleUnderscore(d) && LayoutToBindings(d).Some?
    ensures (forall i :: 0 <= i < |dialogName| ==> NameOrSpace(dialogName[i])) ==>
      MatchesName(DefaultLayoutName(dialogName))
  {
    DefaultLayoutShape("dialog", dialogName, ["_dialog"]);
  }

  // ---------------------------------------------------------------------------
  // Generated text
  // ---------------------------------------------------------------------------

  const DialogConfigImport := ImportLine("com.kk.android.comvvmhelper.anno.DialogConfig")
  const BaseDialogFragmentImport := ImportLine("com.kk.android.comvvmhelper.ui.BaseDialogFragment")
  const DialogConfigAnnotation := "@DialogConfig" + "(widthFraction = 0.8f, heightFraction = 0.5f, backgroundColor = \"#00000000\")\n"
  const InitDialog := "    " + "override fun initDialog(view: View, savedInstanceState: Bundle?) {\n"
  const DialogAnim := "    " + "override fun dialogFragmentAnim() = R.style.Animation_Design_BottomSheetDialog\n"

  /** The package line, a blank line and the imports every dialog fragment has. */
  function DialogImports(packageName: Option<string>): seq<string> {
    ["package " + JavaText(packageName) + "\n", "\n", BundleImport, ViewImport, DialogConfigImport, BaseDialogFragmentImport]
  }

  /** The annotated class, for the binding class name `binding`. */
  function DialogClass(className: string, layoutName: string, hilt: bool, binding: string): seq<string> {
    [DialogConfigAnnotation, ClassHeader(className, hilt, "BaseDialogFragment", binding), "\n",
     LayoutIdLine(layoutName), "\n", InitDialog, "\n", MethodEnd, "\n", DialogAnim, ClassEnd]
  }

  /** dialogClassFileModel, line by line, for the binding class name `binding`. */
  function DialogClassLines(packageName: Option<string>, className: string, layoutName: string, hilt: bool,
                            binding: string): seq<string>
  {
    WithHilt(DialogImports(packageName), hilt, DialogClass(className, layoutName, hilt, binding))
  }

  /** dialogClassFileModel; `None` when layoutToBindings throws for the layout name. */
  function DialogClassText(packageName: Option<string>, className: string, layoutName: string, hilt: bool): Option<string> {
    match LayoutToBindings(layoutName)
    case None => None
    case Some(binding) => Some(Concat(DialogClassLines(packageName, className, layoutName, hilt, binding)))
  }

  /** dialogLayoutModel: the same text whatever the dialog's fields. */
  function DialogLayout(): string {
    BindingLayout("match_parent")
  }

  /** Proof helper, not a property of the plugin:
      the distinguishing characters of the dialog fragment's fixed lines. */
  lemma {:induction false} DialogFixedMarks()
    ensures DialogConfigImport[0] == 'i' && DialogConfigImport[|DialogConfigImport| - 2] == 'g'
    ensures BaseDialogFragmentImport[0] == 'i' && |BaseDialogFragmentImport| == 57
    ensures DialogConfigAnnotation[0] == '@' && |DialogConfigAnnotation| > 19
    ensures InitDialog[0] == ' ' && DialogAnim[0] == ' '
  {
  }

  /** No line of the class starts like an import, and the `@AndroidEntryPoint` annotation is
      none of them. */
  lemma {:induction false} DialogClassMarks(className: string, layoutName: string, hilt: bool, binding: string)
    ensures var cls := DialogClass(className, layoutName, hilt, binding);
      (forall i | 0 <= i < |cls| :: |cls[i]| > 0 && cls[i][0] != 'i') && EntryPointAnnotation !in cls
  {
    DialogFixedMarks();
    FixedMarks();
    var header := ClassHeader(className, hilt, "BaseDialogFragment", binding);
    var layoutId := LayoutIdLine(layoutName);
    assert header[0] == 'c' && layoutId[0] == ' ';
  }

  /** Hilt's imports and `@AndroidEntryPoint` appear exactly when Hilt is checked; the class
      header carries ` @Inject constructor()` exactly then (InjectConstructorInserted). */
  lemma {:induction false} DialogHiltFlags(packageName: Option<string>, className: string, layoutName: string, hilt: bool,
                                           binding: string)
    ensures var lines := DialogClassLines(packageName, className, layoutName, hilt, binding);
      (HiltEntryPointImport in lines <==> hilt) && (InjectImport in lines <==> hilt) && (EntryPointAnnotation in lines <==> hilt)
  {
    DialogFixedMarks();
    FixedMarks();
    var imports, cls := DialogImports(packageName), DialogClass(className, layoutName, hilt, binding);
    var pkgLine := "package " + JavaText(packageName) + "\n";
    assert pkgLine[0] == 'p';
    assert HiltEntryPointImport !in imports && InjectImport !in imports && EntryPointAnnotation !in imports;
    DialogClassMarks(className, layoutName, hilt, binding);
    NotInByFirstChar(HiltEntryPointImport, cls);
    NotInByFirstChar(InjectImport, cls);
    WithHiltFlags(imports, hilt, cls);
  }

  /** The class extends `BaseDialogFragment` of the binding class, with the Hilt constructor
      when Hilt is checked, and `layoutId` names the layout resource. */
  lemma {:induction false} DialogBindingUse(packageName: Option<string>, className: string, layoutName: string, hilt: bool,
                                            binding: string)
    ensures var lines := DialogClassLines(packageName, className, layoutName, hilt, binding);
      ClassHeader(className, hilt, "BaseDialogFragment", binding) in lines && LayoutIdLine(layoutName) in lines
  {
    var cls := DialogClass(className, layoutName, hilt, binding);
    assert cls[1] == ClassHeader(className, hilt, "BaseDialogFragment", binding) && cls[3] == LayoutIdLine(layoutName);
  }

  // ---------------------------------------------------------------------------
  // createFiles
  // ---------------------------------------------------------------------------

  /** The dialog's fields that createFiles reads. */
  datatype DialogFields = DialogFields(packageName: Option<string>, dialogName: string, layoutName: string, hilt: bool)

  /** What createFiles creates and writes: the class and the layout, no ViewModel and no
      manifest entry. */
  function DialogPlan(f: DialogFields): Plan {
    Plan(f.dialogName, f.layoutName, None, DialogClassText(f.packageName, f.dialogName, f.layoutName, f.hilt),
         DialogLayout(), "", None)
  }

  // ---------------------------------------------------------------------------
  // The dialog
  // ---------------------------------------------------------------------------

  class DialogFragmentCreatorDialog {
    /** mDirectory: where the class file is created. */
    const directory: AbsPath
    var packageName: Option<string>
    /** The package combo box items. */
    var packageItems: seq<string>
    var dialogName: string
    var layoutName: string
    var hilt: bool
    /** errorHint and the OK button. */
    const feedback: Feedback

    /** The constructor with findMatchedPkgList's result `pkgList`, and createCenterPanel's
        disabled OK button; the error label starts as the GUI form lays it out. */
    constructor(directory: AbsPath, pkgList: seq<string>, formHintVisible: bool, formHintText: string)
      ensures this.directory == directory
      ensures packageName == InitialPackage(pkgList) && packageItems == pkgList
      ensures dialogName == "" && layoutName == "" && !hilt
      ensures fresh(feedback) && !feedback.okEnabled
      ensures feedback.hintVisible == formHintVisible && feedback.hintText == formHintText
    {
      this.directory := directory;
      packageName := InitialPackage(pkgList);
      packageItems := pkgList;
      dialogName := "";
      layoutName := "";
      hilt := false;
      feedback := new Feedback(formHintVisible, formHintText);
    }

    function Fields(): DialogFields
      reads this
    {
      DialogFields(packageName, dialogName, layoutName, hilt)
    }

    /** The package combo box listener: the selected item becomes the package. */
    method SelectPackage(item: string)
      requires item in packageItems
      modifies this`packageName
      ensures packageName == Some(item)
    {
      packageName := Some(item);
    }

    /** The Hilt check box. */
    method SetHilt(selected: bool)
      modifies this`hilt
      ensures hilt == selected
    {
      hilt := selected;
    }

    /** checkDialogName after the dialog name field changed to `text`: fill in the derived
        layout name and validate the dialog name. OK ends up enabled exactly when the name
        matches the pattern. */
    method CheckDialogName(text: string)
      modifies this`dialogName, this`layoutName, feedback
      ensures dialogName == text && layoutName == DefaultLayoutName(text)
      ensures feedback.okEnabled <==> MatchesName(text)
      ensures !feedback.hintVisible <==> MatchesName(text)
      ensures !MatchesName(text) ==> feedback.hintText == "Not validate class name"
    {
      dialogName := text;
      var translated := TransClassNameToLayoutName(text);
      var stem := CollapseUnderscores(RemoveWhitespace(Replace(translated, "_dialog", "")));
      layoutName := (if StartsWith(stem, "_") then "dialog" else "dialog_") + stem;
      DefaultLayoutNameShape(text);
      assert layoutName[0] == 'd' && !IsBlank(layoutName);
      feedback.Show(CheckName(text, !IsBlank(layoutName), "Not validate class name"));
    }

    /** checkLayoutName after the layout name field changed to `text`. */
    method CheckLayoutName(text: string)
      modifies this`layoutName, feedback
      ensures layoutName == text
      ensures feedback.okEnabled <==> MatchesName(text) && !IsBlank(dialogName)
      ensures !feedback.hintVisible <==> MatchesName(text)
      ensures !MatchesName(text) ==> feedback.hintText == "Not validate layout name"
    {
      layoutName := text;
      feedback.Show(CheckName(text, !IsBlank(dialogName), "Not validate layout name"));
    }

    /** createFiles: the class file, the layout file or the rollback, then the two texts. */
    method CreateFiles(fs: FileSystem) returns (outcome: Outcome)
      modifies fs
      ensures Effect(outcome, fs.files) == Creation(old(fs.files), old(fs.dirs), directory, DialogPlan(Fields()))
      ensures fs.dirs == old(fs.dirs)
    {
      outcome := FileCreation.CreateFiles(fs, directory, DialogPlan(Fields()));
    }
  }
}
