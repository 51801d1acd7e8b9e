/**
 * CovActivityCreatorDialog: derives the layout and ViewModel names from the activity name,
 * validates the three names, and creates the activity class, its layout, an optional ViewModel
 * and an `<activity>` entry in the module's AndroidManifest.xml.
 */
module ActivityCreator {
  import opened Wrappers
  import opened JavaStrings
  import opened Names
  import opened Paths
  import opened Workspace
  import opened CreatorRules
  import opened Manifest
  import opened FileCreation

  // ---------------------------------------------------------------------------
  // Derived names
  // ---------------------------------------------------------------------------

  /** checkActivityName's layout name: the translated name without `_activity`, whitespace
      and `_` runs, behind `activity` and one `_`. */
  function DefaultLayoutName(activityName: string): string {
    WithKind("activity", LayoutStem(activityName, ["_activity"]))
  }

  /** checkActivityName's ViewModel name: `(activityName + "ViewModel").replace("Activity", "")`. */
  function DefaultViewModelName(activityName: string): string {
    Replace(activityName + "ViewModel", "Activity", "")
  }

  /** The default layout name starts with `activity_`, has no `__`, always has a binding
      class name, and passes checkLayoutName when the activity name holds only name and `\s`
      characters (in particular when it passes checkActivityName). */
  lemma {:induction false} DefaultLayoutNameShape(activityName: string)
    ensures var d := DefaultLayoutName(activityName);
      StartsWith(d, "activity_") && NoDoubleUnderscore(d) && LayoutToBindings(d).Some?
    ensures (forall i :: 0 <= i < |activityName| ==> NameOrSpace(activityName[i])) ==>
      MatchesName(DefaultLayoutName(activityName))
  {
    DefaultLayoutShape("activity", activityName, ["_activity"]);
  }

  /** The ViewModel name is the activity name with its `Activity`s removed, then `ViewModel`:
      it always ends in `ViewModel`. */
  lemma {:induction false} DefaultViewModelNameShape(activityName: string)
    ensures DefaultViewModelName(activityName) == Replace(activityName, "Activity", "") + "ViewModel"
    ensures EndsWith(DefaultViewModelName(activityName), "ViewModel")
  {
    ReplaceAppend(activityName, "ViewModel", "Activity", "");
    var v := Replace(activityName, "Activity", "") + "ViewModel";
    assert v[|v| - 9..] == "ViewModel";
  }

  // ---------------------------------------------------------------------------
  // Generated text
  // ---------------------------------------------------------------------------

  const ViewModelsImport := ImportLine("androidx.activity.viewModels")
  const ActivityConfigImport := ImportLine("com.kk.android.comvvmhelper.anno.ActivityConfig")
  const BaseActivityImport := ImportLine("com.kk.android.comvvmhelper.ui.BaseActivity")
  const ActivityConfigAnnotation := "@ActivityConfig\n"
  const InitActivity := "    override fun initActivity(savedInstanceState: Bundle?) {\n"

  /** Proof helper, not a property of the plugin:
      the distinguishing characters of the activity's fixed lines. */
  lemma {:induction false} ActivityFixedMarks()
    ensures ViewModelsImport[0] == 'i' && ViewModelsImport[|ViewModelsImport| - 2] == 's'
    ensures ActivityConfigImport[0] == 'i' && ActivityConfigImport[|ActivityConfigImport| - 2] == 'g'
      && ActivityConfigImport[|ActivityConfigImport| - 3] == 'i'
    ensures BaseActivityImport[0] == 'i' && BaseActivityImport[|BaseActivityImport| - 2] == 'y'
    ensures ActivityConfigAnnotation[0] == '@' && |ActivityConfigAnnotation| == 16
    ensures InitActivity[|InitActivity| - 2] == '{'
  {
    FixedMarks();
  }

  /** The ViewModel property of the activity class. */
  function ViewModelProperty(viewModel: string): string {
    "    private val viewModel by viewModels<" + viewModel + ">()\n"
  }

  /** activityClassFileModel, line by line, for the binding class name `binding`: the package
      line and the imports, then the class. */
  function ActivityClassLines(packageName: Option<string>, className: string, layoutName: string, appPkg: string,
                              viewModel: string, hilt: bool, binding: string): seq<string>
  {
    ActivityImports(packageName, appPkg, viewModel, hilt, binding) + ActivityBody(className, layoutName, viewModel, hilt, binding)
  }

  /** The package line, a blank line and the imports. */
  function ActivityImports(packageName: Option<string>, appPkg: string, viewModel: string, hilt: bool, binding: string): seq<string> {
    ["package " + JavaText(packageName) + "\n", "\n", BundleImport]
    + (if !IsBlank(viewModel) then [ViewModelsImport] else [])
    + [ActivityConfigImport, BaseActivityImport]
    + (if IsBlank(appPkg) then [] else [ImportLine(appPkg + ".R"), ImportLine(appPkg + ".databinding." + binding)])
    + (if hilt then [HiltEntryPointImport] else [])
  }

  /** A blank line, the annotations and the class. */
  function ActivityBody(className: string, layoutName: string, viewModel: string, hilt: bool, binding: string): seq<string> {
    ["\n"]
    + (if hilt then [EntryPointAnnotation] else [])
    + [ActivityConfigAnnotation, "class " + className + " : BaseActivity<" + binding + ">() {\n", "\n"]
    + (if !IsBlank(viewModel) then [ViewModelProperty(viewModel), "\n"] else [])
    + [LayoutIdLine(layoutName), "\n", InitActivity, "\n", MethodEnd, ClassEnd]
  }

  /** activityClassFileModel; `None` when layoutToBindings throws for the layout name. */
  function ActivityClassText(packageName: Option<string>, className: string, layoutName: string, appPkg: string,
                             viewModel: string, hilt: bool): Option<string>
  {
    match LayoutToBindings(layoutName)
    case None => None
    case Some(binding) => Some(Concat(ActivityClassLines(packageName, className, layoutName, appPkg, viewModel, hilt, binding)))
  }

  /** viewModelFileModel, line by line. */
  function ViewModelLines(packageName: Option<string>, viewModelName: string, hilt: bool): seq<string> {
    ["package " + JavaText(packageName) + "\n", "\n", "import androidx.lifecycle.ViewModel\n"]
    + (if hilt then ["import dagger.hilt.android.lifecycle.HiltViewModel\n", InjectImport] else [])
    + ["\n"]
    + (if hilt then ["@HiltViewModel\n"] else [])
    + ["class " + viewModelName + InjectConstructor(hilt) + " : ViewModel() {\n", "\n", "}"]
  }

  /** activityLayoutModel. */
  function ActivityLayout(): string {
    BindingLayout("match_parent")
  }

  /** The ViewModel file carries `@HiltViewModel` and the Inject import exactly when Hilt is
      checked, and always declares the class as a ViewModel. */
  lemma {:induction false} ViewModelHiltFlags(packageName: Option<string>, viewModelName: string, hilt: bool)
    ensures var lines := ViewModelLines(packageName, viewModelName, hilt);
      ("@HiltViewModel\n" in lines <==> hilt) && (InjectImport in lines <==> hilt) &&
      "class " + viewModelName + InjectConstructor(hilt) + " : ViewModel() {\n" in lines
  {
    var lines := ViewModelLines(packageName, viewModelName, hilt);
    var pkg := "package " + JavaText(packageName) + "\n";
    var cls := "class " + viewModelName + InjectConstructor(hilt) + " : ViewModel() {\n";
    if hilt {
      assert lines[4] == InjectImport && lines[6] == "@HiltViewModel\n" && lines[7] == cls;
    } else {
      FixedMarks();
      assert lines == [pkg, "\n", "import androidx.lifecycle.ViewModel\n", "\n", cls, "\n", "}"];
      assert pkg[0] == 'p' && cls[0] == 'c';
      assert lines[4] == cls;
    }
  }

  // The flag lemmas tell the lines built from parameters apart from the others by their first
  // character, the fifth character of an indented line, or the characters before the line
  // break.

  /** No line of the class starts like an import or the package line. */
  lemma {:induction false} ActivityBodyMarks(className: string, layoutName: string, viewModel: string, hilt: bool, binding: string)
    ensures var body := ActivityBody(className, layoutName, viewModel, hilt, binding);
      forall i | 0 <= i < |body| :: |body[i]| > 0 && body[i][0] != 'i' && body[i][0] != 'p'
  {
    LineMarks(None, className, layoutName, "", viewModel, hilt, binding);
    ActivityFixedMarks();
  }

  /** Proof helper, not a property of the plugin:
      no package or import line starts like an indented or annotation line. */
  lemma {:induction false} ActivityImportsMarks(packageName: Option<string>, appPkg: string, viewModel: string, hilt: bool, binding: string)
    ensures var imports := ActivityImports(packageName, appPkg, viewModel, hilt, binding);
      forall i | 0 <= i < |imports| :: |imports[i]| > 0 && imports[i][0] != ' ' && imports[i][0] != '@'
  {
    LineMarks(packageName, "", "", appPkg, viewModel, hilt, binding);
    ActivityFixedMarks();
    FixedMarks();
    var a := ["package " + JavaText(packageName) + "\n", "\n", BundleImport];
    var b := if !IsBlank(viewModel) then [ViewModelsImport] else [];
    var c := [ActivityConfigImport, BaseActivityImport];
    var d := if IsBlank(appPkg) then [] else [ImportLine(appPkg + ".R"), ImportLine(appPkg + ".databinding." + binding)];
    var e := if hilt then [HiltEntryPointImport] else [];
    assert StartNotWith(a, ' ', '@') && StartNotWith(b, ' ', '@') && StartNotWith(c, ' ', '@');
    assert StartNotWith(d, ' ', '@') && StartNotWith(e, ' ', '@');
    StartNotWithAppend(a, b, ' ', '@');
    StartNotWithAppend(a + b, c, ' ', '@');
    StartNotWithAppend(a + b + c, d, ' ', '@');
    StartNotWithAppend(a + b + c + d, e, ' ', '@');
  }

  /** The `viewModels` import appears exactly when the ViewModel name is non-blank. */
  lemma {:induction false} ActivityViewModelsImportFlag(packageName: Option<string>, className: string, layoutName: string, appPkg: string,
                                 viewModel: string, hilt: bool, binding: string)
    requires EndsWith(binding, "Binding")
    ensures ViewModelsImport in ActivityClassLines(packageName, className, layoutName, appPkg, viewModel, hilt, binding) <==> !IsBlank(viewModel)
  {
    LineMarks(packageName, className, layoutName, appPkg, viewModel, hilt, binding);
    ActivityBodyMarks(className, layoutName, viewModel, hilt, binding);
    NotInByFirstChar(ViewModelsImport, ActivityBody(className, layoutName, viewModel, hilt, binding));
  }

  /** The `viewModel` property appears exactly when the ViewModel name is non-blank. */
  lemma {:induction false} ActivityViewModelPropertyFlag(packageName: Option<string>, className: string, layoutName: string, appPkg: string,
                                 viewModel: string, hilt: bool, binding: string)
    ensures ViewModelProperty(viewModel) in ActivityClassLines(packageName, className, layoutName, appPkg, viewModel, hilt, binding) <==> !IsBlank(viewModel)
  {
    LineMarks(packageName, className, layoutName, appPkg, viewModel, hilt, binding);
    var vmLine := ViewModelProperty(viewModel);
    assert vmLine[4] == 'p' && vmLine[|vmLine| - 2] == ')';
    ActivityImportsMarks(packageName, appPkg, viewModel, hilt, binding);
    NotInByFirstChar(vmLine, ActivityImports(packageName, appPkg, viewModel, hilt, binding));
  }

  /** The Hilt `AndroidEntryPoint` import appears exactly when Hilt is checked. */
  lemma {:induction false} ActivityHiltImportFlag(packageName: Option<string>, className: string, layoutName: string, appPkg: string,
                                 viewModel: string, hilt: bool, binding: string)
    requires EndsWith(binding, "Binding")
    ensures HiltEntryPointImport in ActivityClassLines(packageName, className, layoutName, appPkg, viewModel, hilt, binding) <==> hilt
  {
    LineMarks(packageName, className, layoutName, appPkg, viewModel, hilt, binding);
    ActivityBodyMarks(className, layoutName, viewModel, hilt, binding);
    NotInByFirstChar(HiltEntryPointImport, ActivityBody(className, layoutName, viewModel, hilt, binding));
  }

  /** The `@AndroidEntryPoint` annotation appears exactly when Hilt is checked. */
  lemma {:induction false} ActivityHiltAnnotationFlag(packageName: Option<string>, className: string, layoutName: string, appPkg: string,
                                 viewModel: string, hilt: bool, binding: string)
    ensures EntryPointAnnotation in ActivityClassLines(packageName, className, layoutName, appPkg, viewModel, hilt, binding) <==> hilt
  {
    LineMarks(packageName, className, layoutName, appPkg, viewModel, hilt, binding);
    ActivityImportsMarks(packageName, appPkg, viewModel, hilt, binding);
    NotInByFirstChar(EntryPointAnnotation, ActivityImports(packageName, appPkg, viewModel, hilt, binding));
  }

  /** The `R` import appears exactly when `appPkg` is non-blank. */
  lemma {:induction false} ActivityRImportFlag(packageName: Option<string>, className: string, layoutName: string, appPkg: string,
                                 viewModel: string, hilt: bool, binding: string)
    requires EndsWith(binding, "Binding")
    ensures ImportLine(appPkg + ".R") in ActivityClassLines(packageName, className, layoutName, appPkg, viewModel, hilt, binding) <==> !IsBlank(appPkg)
  {
    LineMarks(packageName, className, layoutName, appPkg, viewModel, hilt, binding);
    ActivityBodyMarks(className, layoutName, viewModel, hilt, binding);
    NotInByFirstChar(ImportLine(appPkg + ".R"), ActivityBody(className, layoutName, viewModel, hilt, binding));
  }

  /** The class always extends `BaseActivity` of the binding class, and `layoutId` names the
      layout. */
  lemma {:induction false} ActivityBindingUse(packageName: Option<string>, className: string, layoutName: string, appPkg: string,
                                 viewModel: string, hilt: bool, binding: string)
    ensures var lines := ActivityClassLines(packageName, className, layoutName, appPkg, viewModel, hilt, binding);
      "class " + className + " : BaseActivity<" + binding + ">() {\n" in lines && LayoutIdLine(layoutName) in lines
  {
    var body := ActivityBody(className, layoutName, viewModel, hilt, binding);
    assert body[|body| - 6] == LayoutIdLine(layoutName);
    assert LayoutIdLine(layoutName) in body;
  }

  /** The binding import appears exactly when `appPkg` is non-blank. */
  lemma {:induction false} ActivityBindingImportFlag(packageName: Option<string>, className: string, layoutName: string, appPkg: string,
                                 viewModel: string, hilt: bool, binding: string)
    requires EndsWith(binding, "Binding")
    ensures ImportLine(appPkg + ".databinding." + binding) in ActivityClassLines(packageName, className, layoutName, appPkg, viewModel, hilt, binding) <==> !IsBlank(appPkg)
  {
    LineMarks(packageName, className, layoutName, appPkg, viewModel, hilt, binding);
    var bindingImport := ImportLine(appPkg + ".databinding." + binding);
    assert bindingImport[|bindingImport| - 3] == 'n';
    ActivityBodyMarks(className, layoutName, viewModel, hilt, binding);
    NotInByFirstChar(bindingImport, ActivityBody(className, layoutName, viewModel, hilt, binding));
  }

  /** Proof helper, not a property of the plugin:
      the distinguishing characters of the lines built from parameters. */
  lemma {:induction false} LineMarks(packageName: Option<string>, className: string, layoutName: string, appPkg: string,
                                 viewModel: string, hilt: bool, binding: string)
    ensures var pkgLine := "package " + JavaText(packageName) + "\n"; pkgLine[0] == 'p'
    ensures var classLine := "class " + className + " : BaseActivity<" + binding + ">() {\n"; classLine[0] == 'c'
    ensures ViewModelProperty(viewModel)[0] == ' ' && LayoutIdLine(layoutName)[0] == ' ' && LayoutIdLine(layoutName)[4] == 'o'
    ensures var rImport := ImportLine(appPkg + ".R"); rImport[0] == 'i' && rImport[|rImport| - 2] == 'R'
    ensures var bindingImport := ImportLine(appPkg + ".databinding." + binding);
      bindingImport[0] == 'i' && (EndsWith(binding, "Binding") ==> bindingImport[|bindingImport| - 2] == 'g')
  {
    if EndsWith(binding, "Binding") {
      assert binding[|binding| - 1] == 'g';
    }
  }

  // ---------------------------------------------------------------------------
  // createFiles
  // ---------------------------------------------------------------------------

  /** The dialog's fields that createFiles reads. */
  datatype ActivityFields = ActivityFields(packageName: Option<string>, activityName: string, layoutName: string,
                                           viewModelName: string, hilt: bool)

  /** What createFiles creates and writes for the fields, with `appPkg` for
      Utils.appPackage of the class file: a ViewModel file only for a non-blank ViewModel
      name, and the `<activity>` element for the manifest. */
  function ActivityPlan(f: ActivityFields, appPkg: string): Plan {
    Plan(f.activityName, f.layoutName,
         if IsBlank(f.viewModelName) then None else Some(f.viewModelName),
         ActivityClassText(f.packageName, f.activityName, f.layoutName, appPkg, f.viewModelName, f.hilt),
         ActivityLayout(),
         Concat(ViewModelLines(f.packageName, f.viewModelName, f.hilt)),
         Some(ActivityEntry(f.packageName, f.activityName)))
  }

  // ---------------------------------------------------------------------------
  // The dialog
  // ---------------------------------------------------------------------------

  class ActivityCreatorDialog {
    /** mDirectory: where the class files are created. */
    const directory: AbsPath
    var packageName: Option<string>
    /** The package combo box items. */
    var packageItems: seq<string>
    var activityName: string
    var layoutName: string
    var viewModelName: string
    var hilt: bool
    /** errorHint and the OK button. */
    const feedback: Feedback

    /** The constructor with findMatchedPkgList's result `pkgList`, and createCenterPanel's
        disabled OK button; the error label starts as the GUI form lays it out. */
    constructor(directory: AbsPath, pkgList: seq<string>, formHintVisible: bool, formHintText: string)
      ensures this.directory == directory
      ensures packageName == InitialPackage(pkgList) && packageItems == pkgList
      ensures activityName == "" && layoutName == "" && viewModelName == "" && !hilt
      ensures fresh(feedback) && !feedback.okEnabled
      ensures feedback.hintVisible == formHintVisible && feedback.hintText == formHintText
    {
      this.directory := directory;
      packageName := InitialPackage(pkgList);
      packageItems := pkgList;
      activityName := "";
      layoutName := "";
      viewModelName := "";
      hilt := false;
      feedback := new Feedback(formHintVisible, formHintText);
    }

    function Fields(): ActivityFields
      reads this
    {
      ActivityFields(packageName, activityName, layoutName, viewModelName, hilt)
    }

    /** The package combo box listener: the selected item becomes the package. */
    method SelectPackage(item: string)
      requires item in packageItems
      modifies this`packageName
      ensures packageName == Some(item)
    {
      packageName := Some(item);
    }

    /** The Hilt check box. */
    method SetHilt(selected: bool)
      modifies this`hilt
      ensures hilt == selected
    {
      hilt := selected;
    }

    /** checkActivityName after the activity name field changed to `text`: fill in the
        derived layout and ViewModel names and validate the activity name. OK ends up enabled
        exactly when the name matches the pattern. */
    method CheckActivityName(text: string)
      modifies this`activityName, this`layoutName, this`viewModelName, feedback
      ensures activityName == text
      ensures layoutName == DefaultLayoutName(text) && viewModelName == DefaultViewModelName(text)
      ensures feedback.okEnabled <==> MatchesName(text)
      ensures !feedback.hintVisible <==> MatchesName(text)
      ensures !MatchesName(text) ==> feedback.hintText == "Not validate class name"
    {
      activityName := text;
      var translated := TransClassNameToLayoutName(text);
      var stem := CollapseUnderscores(RemoveWhitespace(Replace(translated, "_activity", "")));
      layoutName := (if StartsWith(stem, "_") then "activity" else "activity_") + stem;
      viewModelName := Replace(text + "ViewModel", "Activity", "");
      DefaultLayoutNameShape(text);
      assert layoutName[0] == 'a' && !IsBlank(layoutName);
      feedback.Show(CheckName(text, !IsBlank(layoutName), "Not validate class name"));
    }

    /** checkLayoutName after the layout name field changed to `text`. */
    method CheckLayoutName(text: string)
      modifies this`layoutName, feedback
      ensures layoutName == text
      ensures feedback.okEnabled <==> MatchesName(text) && !IsBlank(activityName)
      ensures !feedback.hintVisible <==> MatchesName(text)
      ensures !MatchesName(text) ==> feedback.hintText == "Not validate layout name"
    {
      layoutName := text;
      feedback.Show(CheckName(text, !IsBlank(activityName), "Not validate layout name"));
    }

    /** checkViewModelName after the ViewModel name field changed to `text`: the empty name
        is accepted, and then OK needs both other names non-blank. */
    method CheckViewModelName(text: string)
      modifies this`viewModelName, feedback
      ensures viewModelName == text
      ensures feedback.okEnabled <==> (text == "" || MatchesName(text)) && !IsBlank(activityName) && !IsBlank(layoutName)
      ensures !feedback.hintVisible <==> text == "" || MatchesName(text)
      ensures feedback.hintVisible ==> feedback.hintText == "Not validate ViewModel name"
    {
      viewModelName := text;
      feedback.Show(CheckOptionalName(text, !IsBlank(activityName) && !IsBlank(layoutName), "Not validate ViewModel name"));
    }

    /** createFiles with `appPkg` for Utils.appPackage of the class file. */
    method CreateFiles(fs: FileSystem, appPkg: string) returns (outcome: Outcome)
      modifies fs
      ensures Effect(outcome, fs.files) == Creation(old(fs.files), old(fs.dirs), directory, ActivityPlan(Fields(), appPkg))
      ensures fs.dirs == old(fs.dirs)
    {
      outcome := FileCreation.CreateFiles(fs, directory, ActivityPlan(Fields(), appPkg));
    }
  }
}
