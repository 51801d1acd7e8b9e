/**
 * What the createFiles methods of the four creator dialogs do to the project's files, once for
 * all of them: create the class file (and the activity's ViewModel file), create the layout file
 * through Utils.getResLayoutPath or roll the class files back when the module has no layout
 * directory, write the generated texts, and register the activity in the manifest.
 */
module FileCreation {
  import opened Wrappers
  import opened JavaStrings
  import opened Paths
  import opened Workspace
  import opened Manifest

  /** What one dialog's createFiles creates and writes. The texts depend only on the dialog's
      fields and on Utils.appPackage of the class file, never on the files createFiles
      changes, so they are given up front; `classText` is `None` when building it throws
      (layoutToBindings of an unusable layout name). */
  datatype Plan = Plan(
    className: string,
    layoutName: string,
    viewModelName: Option<string>,  // the activity's ViewModel file, for a non-blank name
    classText: Option<string>,
    layoutText: string,
    viewModelText: string,
    manifestEntry: Option<string>)  // the activity's `<activity>` element

  /** `className.kt` in the dialog's directory. */
  function ClassFile(directory: AbsPath, plan: Plan): AbsPath {
    ChildPath(directory, plan.className + ".kt")
  }

  /** `viewModelName.kt` in the dialog's directory, when there is a ViewModel. */
  function ViewModelFile(directory: AbsPath, plan: Plan): Option<AbsPath> {
    match plan.viewModelName
    case None => None
    case Some(name) => Some(ChildPath(directory, name + ".kt"))
  }

  /** The files once the class file and the ViewModel file (if any) are created empty. */
  function ClassFilesCreated(files: map<AbsPath, string>, directory: AbsPath, plan: Plan): map<AbsPath, string> {
    var files1 := files[ClassFile(directory, plan) := ""];
    match ViewModelFile(directory, plan)
    case None => files1
    case Some(vmPath) => files1[vmPath := ""]
  }

  /** Reference result of createFiles: how it ends and the files afterwards. PsiDirectory.createFile
      throws when the file exists. */
  function Creation(files: map<AbsPath, string>, dirs: set<AbsPath>, directory: AbsPath, plan: Plan): Effect {
    var classPath := ClassFile(directory, plan);
    if classPath in files then Effect(Thrown, files)
    else
      var files1 := files[classPath := ""];
      match ViewModelFile(directory, plan)
      case None => AfterClassFiles(files1, dirs, plan, classPath, None)
      case Some(vmPath) =>
        if vmPath in files1 then Effect(Thrown, files1)
        else AfterClassFiles(files1[vmPath := ""], dirs, plan, classPath, Some(vmPath))
  }

  /** createFiles once the class files exist: no layout directory rolls back, an existing
      layout file or a class text that throws ends with an exception, and otherwise the
      texts are written. */
  function AfterClassFiles(files: map<AbsPath, string>, dirs: set<AbsPath>, plan: Plan, classPath: AbsPath,
                           vmFile: Option<AbsPath>): Effect
  {
    match ResLayoutDir(files, dirs, plan.layoutName, classPath)
    case NoLayoutDir => Effect(RolledBack, RemoveCreated(files, classPath, vmFile))
    case LayoutFileExists => Effect(Thrown, files)
    case LayoutDirAt(dir) =>
      var layoutFile := ChildPath(dir, plan.layoutName + ".xml");
      match plan.classText
      case None => Effect(Thrown, files[layoutFile := ""])
      case Some(text) => Effect(Completed, WriteFiles(files[layoutFile := ""], plan, classPath, layoutFile, vmFile, text))
  }

  /** The rollback: delete the class file, then the ViewModel file if it exists. */
  function RemoveCreated(files: map<AbsPath, string>, classPath: AbsPath, vmFile: Option<AbsPath>): map<AbsPath, string> {
    var rest := files - {classPath};
    if vmFile.Some? && vmFile.value in rest then rest - {vmFile.value} else rest
  }

  /** The writes: class file, layout file, ViewModel file, then the manifest. */
  function WriteFiles(files: map<AbsPath, string>, plan: Plan, classPath: AbsPath, layoutFile: AbsPath,
                      vmFile: Option<AbsPath>, classText: string): map<AbsPath, string>
  {
    var written := files[classPath := classText][layoutFile := plan.layoutText];
    var withVm := if vmFile.Some? then written[vmFile.value := plan.viewModelText] else written;
    match plan.manifestEntry
    case None => withVm
    case Some(entry) => UpdateManifest(withVm, FindAndroidManifestFile(classPath), entry)
  }

  /** createFiles rolls back exactly when it created the class file (and the ViewModel file)
      and the module has no resolvable layout directory; the files are then exactly as
      before. */
  lemma {:induction false} CreationRollsBack(files: map<AbsPath, string>, dirs: set<AbsPath>, directory: AbsPath, plan: Plan)
    ensures var e := Creation(files, dirs, directory, plan);
      var classPath, vmFile := ClassFile(directory, plan), ViewModelFile(directory, plan);
      var layoutDir := FindAndroidResLayoutFile(classPath);
      (e.outcome == RolledBack <==>
        classPath !in files &&
        (vmFile.Some? ==> vmFile.value !in files && vmFile.value != classPath) &&
        (layoutDir.None? || layoutDir.value !in dirs)) &&
      (e.outcome == RolledBack ==> e.files == files)
  {
    var classPath := ClassFile(directory, plan);
    if classPath !in files {
      var files1 := files[classPath := ""];
      assert files1 - {classPath} == files;
      match ViewModelFile(directory, plan)
      case None =>
      case Some(vmPath) =>
        if vmPath !in files1 {
          assert files1[vmPath := ""] - {classPath} - {vmPath} == files;
        }
    }
  }

  /** A run that gets past the class files created them new, and goes on from the files that
      hold them empty. */
  lemma {:induction false} CreationPastClassFiles(files: map<AbsPath, string>, dirs: set<AbsPath>, directory: AbsPath, plan: Plan)
    requires Creation(files, dirs, directory, plan).outcome != Thrown
    ensures ClassFile(directory, plan) !in files
    ensures ViewModelFile(directory, plan).Some? ==>
      ViewModelFile(directory, plan).value !in files && ViewModelFile(directory, plan).value != ClassFile(directory, plan)
    ensures Creation(files, dirs, directory, plan) ==
      AfterClassFiles(ClassFilesCreated(files, directory, plan), dirs, plan, ClassFile(directory, plan), ViewModelFile(directory, plan))
  {
  }

  /** A completed run after the class files: the layout directory was found, the class text
      exists, and the files are those the writes leave. */
  lemma {:induction false} AfterClassFilesCompleted(files: map<AbsPath, string>, dirs: set<AbsPath>, plan: Plan, classPath: AbsPath,
                                                    vmFile: Option<AbsPath>)
    requires AfterClassFiles(files, dirs, plan, classPath, vmFile).outcome == Completed
    ensures ResLayoutDir(files, dirs, plan.layoutName, classPath).LayoutDirAt?
    ensures plan.classText.Some?
    ensures var layoutFile := ChildPath(ResLayoutDir(files, dirs, plan.layoutName, classPath).path, plan.layoutName + ".xml");
      layoutFile !in files &&
      AfterClassFiles(files, dirs, plan, classPath, vmFile).files ==
      WriteFiles(files[layoutFile := ""], plan, classPath, layoutFile, vmFile, plan.classText.value)
  {
  }

  /** A `.kt` file is never an `.xml` file (the layout file or the manifest). */
  lemma {:induction false} KotlinFileIsNotXml(directory: AbsPath, name: string, q: AbsPath)
    requires q[|q| - 1] == 'l'
    ensures ChildPath(directory, name + ".kt") != q
  {
    var p := ChildPath(directory, name + ".kt");
    assert p[|p| - 1] == (name + ".kt")[|name| + 2] == 't';
  }

  /** The files createFiles writes are distinct: the `.kt` files differ from the layout file
      and the manifest (both end in `l`), and the layout file is not the manifest. */
  lemma {:induction false} WrittenFilesDistinct(directory: AbsPath, plan: Plan, dir: AbsPath)
    requires FindAndroidResLayoutFile(ClassFile(directory, plan)) == Some(dir)
    ensures FindAndroidManifestFile(ClassFile(directory, plan)).Some?
    ensures var classPath, layoutFile := ClassFile(directory, plan), ChildPath(dir, plan.layoutName + ".xml");
      var m, vmFile := FindAndroidManifestFile(classPath).value, ViewModelFile(directory, plan);
      m != classPath && m != layoutFile && layoutFile != classPath &&
      (vmFile.Some? ==> m != vmFile.value && layoutFile != vmFile.value)
  {
    var classPath := ClassFile(directory, plan);
    var layoutFile := ChildPath(dir, plan.layoutName + ".xml");
    LayoutFileIsNotManifest(classPath, plan.layoutName);
    var m := FindAndroidManifestFile(classPath).value;
    assert m[|m| - 1] == ManifestSuffix[|ManifestSuffix| - 1] == 'l';
    assert layoutFile[|layoutFile| - 1] == (plan.layoutName + ".xml")[|plan.layoutName| + 3] == 'l';
    KotlinFileIsNotXml(directory, plan.className, m);
    KotlinFileIsNotXml(directory, plan.className, layoutFile);
    if plan.viewModelName.Some? {
      KotlinFileIsNotXml(directory, plan.viewModelName.value, m);
      KotlinFileIsNotXml(directory, plan.viewModelName.value, layoutFile);
    }
  }

  /** What the writes leave in each written file, given that the manifest is none of the
      others; every other file keeps its content. */
  lemma {:induction false} WriteFilesContents(files: map<AbsPath, string>, plan: Plan, classPath: AbsPath, layoutFile: AbsPath,
                                              vmFile: Option<AbsPath>, classText: string)
    requires FindAndroidManifestFile(classPath).Some?
    requires var m := FindAndroidManifestFile(classPath).value;
      m != classPath && m != layoutFile && (vmFile.Some? ==> m != vmFile.value)
    requires layoutFile != classPath && (vmFile.Some? ==> vmFile.value != classPath && vmFile.value != layoutFile)
    ensures var r, m := WriteFiles(files, plan, classPath, layoutFile, vmFile, classText), FindAndroidManifestFile(classPath).value;
      classPath in r && r[classPath] == classText && layoutFile in r && r[layoutFile] == plan.layoutText &&
      (vmFile.Some? ==> vmFile.value in r && r[vmFile.value] == plan.viewModelText) &&
      (m in files ==> m in r && r[m] == ManifestEntered(files[m], plan.manifestEntry)) &&
      (m !in files ==> m !in r) &&
      forall p :: p in files && p != classPath && p != layoutFile && (vmFile.None? || p != vmFile.value) && p != m ==>
        p in r && r[p] == files[p]
  {
    var written := files[classPath := classText][layoutFile := plan.layoutText];
    var withVm := if vmFile.Some? then written[vmFile.value := plan.viewModelText] else written;
    var m := FindAndroidManifestFile(classPath).value;
    assert m in withVm <==> m in files;
    if m in files {
      assert withVm[m] == files[m];
    }
    if plan.manifestEntry.Some? {
      UpdateManifestEffect(withVm, Some(m), plan.manifestEntry.value);
    }
  }

  /** The manifest after the writes: updated for an activity, untouched otherwise. */
  function ManifestEntered(content: string, entry: Option<string>): string {
    match entry
    case None => content
    case Some(e) => ManifestAfter(content, e)
  }

  /** Creating the class files and the layout file changes no other file. */
  lemma {:induction false} CreatedFilesKeepOthers(files: map<AbsPath, string>, directory: AbsPath, plan: Plan,
                                                  layoutFile: AbsPath, p: AbsPath)
    requires p != ClassFile(directory, plan) && p != layoutFile
    requires ViewModelFile(directory, plan).Some? ==> p != ViewModelFile(directory, plan).value
    ensures var before := ClassFilesCreated(files, directory, plan)[layoutFile := ""];
      (p in before <==> p in files) && (p in files ==> before[p] == files[p])
  {
  }

  /** After a completed createFiles the class file holds the class text, the layout file the
      layout text, the ViewModel file (if any) its text, and the manifest, for an activity,
      the updated text; the created files are new. */
  lemma {:induction false} CreationCompletes(files: map<AbsPath, string>, dirs: set<AbsPath>, directory: AbsPath, plan: Plan)
    requires Creation(files, dirs, directory, plan).outcome == Completed
    ensures plan.classText.Some?
    ensures FindAndroidResLayoutFile(ClassFile(directory, plan)).Some? && FindAndroidManifestFile(ClassFile(directory, plan)).Some?
    ensures var e := Creation(files, dirs, directory, plan);
      var classPath, vmFile := ClassFile(directory, plan), ViewModelFile(directory, plan);
      var layoutFile := ChildPath(FindAndroidResLayoutFile(classPath).value, plan.layoutName + ".xml");
      var m := FindAndroidManifestFile(classPath).value;
      classPath !in files && layoutFile !in files &&
      classPath in e.files && layoutFile in e.files &&
      e.files[classPath] == plan.classText.value && e.files[layoutFile] == plan.layoutText &&
      (vmFile.Some? ==> vmFile.value !in files && vmFile.value in e.files && e.files[vmFile.value] == plan.viewModelText) &&
      (m in files ==> m in e.files && e.files[m] == ManifestEntered(files[m], plan.manifestEntry)) &&
      (m !in files ==> m !in e.files)
  {
    var classPath, vmFile := ClassFile(directory, plan), ViewModelFile(directory, plan);
    CreationPastClassFiles(files, dirs, directory, plan);
    var files2 := ClassFilesCreated(files, directory, plan);
    AfterClassFilesCompleted(files2, dirs, plan, classPath, vmFile);
    var dir := FindAndroidResLayoutFile(classPath).value;
    var layoutFile := ChildPath(dir, plan.layoutName + ".xml");
    WrittenFilesDistinct(directory, plan, dir);
    var m := FindAndroidManifestFile(classPath).value;
    WriteFilesContents(files2[layoutFile := ""], plan, classPath, layoutFile, vmFile, plan.classText.value);
    CreatedFilesKeepOthers(files, directory, plan, layoutFile, m);
  }

  /** createFiles touches only the files it creates and the manifest: every other file keeps
      its content, whatever the outcome, and no other file appears. */
  lemma {:induction false} CreationTouchesOnlyItsFiles(files: map<AbsPath, string>, dirs: set<AbsPath>, directory: AbsPath, plan: Plan,
                                                       p: AbsPath)
    requires p != ClassFile(directory, plan)
    requires ViewModelFile(directory, plan).Some? ==> p != ViewModelFile(directory, plan).value
    requires FindAndroidResLayoutFile(ClassFile(directory, plan)).Some? ==>
      p != ChildPath(FindAndroidResLayoutFile(ClassFile(directory, plan)).value, plan.layoutName + ".xml")
    requires plan.manifestEntry.Some? && FindAndroidManifestFile(ClassFile(directory, plan)).Some? ==>
      p != FindAndroidManifestFile(ClassFile(directory, plan)).value
    ensures var e := Creation(files, dirs, directory, plan);
      (p in e.files <==> p in files) && (p in files ==> e.files[p] == files[p])
  {
    var e := Creation(files, dirs, directory, plan);
    var classPath, vmFile := ClassFile(directory, plan), ViewModelFile(directory, plan);
    if e.outcome == RolledBack {
      CreationRollsBack(files, dirs, directory, plan);
    } else if e.outcome == Completed {
      CreationPastClassFiles(files, dirs, directory, plan);
      var files2 := ClassFilesCreated(files, directory, plan);
      AfterClassFilesCompleted(files2, dirs, plan, classPath, vmFile);
      var dir := FindAndroidResLayoutFile(classPath).value;
      var layoutFile := ChildPath(dir, plan.layoutName + ".xml");
      WrittenFilesDistinct(directory, plan, dir);
      var m := FindAndroidManifestFile(classPath).value;
      WriteFilesContents(files2[layoutFile := ""], plan, classPath, layoutFile, vmFile, plan.classText.value);
      CreatedFilesKeepOthers(files, directory, plan, layoutFile, p);
      if plan.manifestEntry.None? && p == m {
        assert WriteFiles(files2[layoutFile := ""], plan, classPath, layoutFile, vmFile, plan.classText.value) ==
          (var written := files2[layoutFile := ""][classPath := plan.classText.value][layoutFile := plan.layoutText];
           if vmFile.Some? then written[vmFile.value := plan.viewModelText] else written);
      }
    } else {
      ThrownTouchesOnlyItsFiles(files, dirs, directory, plan, p);
    }
  }

  /** For the creators with no ViewModel and no manifest entry: a completed run holds the
      class text and the layout text in their files, and every other file, the manifest
      included, is as before whatever the outcome. */
  lemma {:induction false} CreationWithoutManifest(files: map<AbsPath, string>, dirs: set<AbsPath>, directory: AbsPath,
                                                   plan: Plan)
    requires plan.viewModelName.None? && plan.manifestEntry.None?
    ensures var e := Creation(files, dirs, directory, plan);
      var classPath := ClassFile(directory, plan);
      var layoutDir := FindAndroidResLayoutFile(classPath);
      (e.outcome == Completed ==>
        layoutDir.Some? && plan.classText.Some? &&
        classPath in e.files && e.files[classPath] == plan.classText.value &&
        ChildPath(layoutDir.value, plan.layoutName + ".xml") in e.files &&
        e.files[ChildPath(layoutDir.value, plan.layoutName + ".xml")] == plan.layoutText) &&
      forall p :: p != classPath && (layoutDir.None? || p != ChildPath(layoutDir.value, plan.layoutName + ".xml")) ==>
        (p in e.files <==> p in files) && (p in files ==> e.files[p] == files[p])
  {
    var e := Creation(files, dirs, directory, plan);
    var classPath := ClassFile(directory, plan);
    var layoutDir := FindAndroidResLayoutFile(classPath);
    if e.outcome == Completed {
      CreationCompletes(files, dirs, directory, plan);
    }
    forall p | p != classPath && (layoutDir.None? || p != ChildPath(layoutDir.value, plan.layoutName + ".xml"))
      ensures (p in e.files <==> p in files) && (p in files ==> e.files[p] == files[p])
    {
      CreationTouchesOnlyItsFiles(files, dirs, directory, plan, p);
    }
  }

  /** A run that throws has at most created its own files empty. */
  lemma {:induction false} ThrownTouchesOnlyItsFiles(files: map<AbsPath, string>, dirs: set<AbsPath>, directory: AbsPath, plan: Plan,
                                                     p: AbsPath)
    requires Creation(files, dirs, directory, plan).outcome == Thrown
    requires p != ClassFile(directory, plan)
    requires ViewModelFile(directory, plan).Some? ==> p != ViewModelFile(directory, plan).value
    requires FindAndroidResLayoutFile(ClassFile(directory, plan)).Some? ==>
      p != ChildPath(FindAndroidResLayoutFile(ClassFile(directory, plan)).value, plan.layoutName + ".xml")
    ensures var e := Creation(files, dirs, directory, plan);
      (p in e.files <==> p in files) && (p in files ==> e.files[p] == files[p])
  {
    var classPath := ClassFile(directory, plan);
    if classPath !in files {
      var files1 := files[classPath := ""];
      match ViewModelFile(directory, plan)
      case None =>
        AfterClassFilesThrownKeeps(files1, dirs, plan, classPath, None, p);
      case Some(vmPath) =>
        if vmPath !in files1 {
          AfterClassFilesThrownKeeps(files1[vmPath := ""], dirs, plan, classPath, Some(vmPath), p);
        }
    }
  }

  /** Past the class files, a run that throws has at most created the layout file empty. */
  lemma {:induction false} AfterClassFilesThrownKeeps(files: map<AbsPath, string>, dirs: set<AbsPath>, plan: Plan,
                                                      classPath: AbsPath, vmFile: Option<AbsPath>, p: AbsPath)
    requires AfterClassFiles(files, dirs, plan, classPath, vmFile).outcome == Thrown
    requires FindAndroidResLayoutFile(classPath).Some? ==>
      p != ChildPath(FindAndroidResLayoutFile(classPath).value, plan.layoutName + ".xml")
    ensures var e := AfterClassFiles(files, dirs, plan, classPath, vmFile);
      (p in e.files <==> p in files) && (p in files ==> e.files[p] == files[p])
  {
  }

  /** createFiles ends with an exception exactly when the class file or the ViewModel file
      already exists, the layout file already exists, or the class text cannot be built. */
  lemma {:induction false} CreationThrows(files: map<AbsPath, string>, dirs: set<AbsPath>, directory: AbsPath, plan: Plan)
    ensures var classPath, vmFile := ClassFile(directory, plan), ViewModelFile(directory, plan);
      var files2 := ClassFilesCreated(files, directory, plan);
      Creation(files, dirs, directory, plan).outcome == Thrown <==>
        classPath in files ||
        (vmFile.Some? && (vmFile.value in files || vmFile.value == classPath)) ||
        ResLayoutDir(files2, dirs, plan.layoutName, classPath).LayoutFileExists? ||
        (ResLayoutDir(files2, dirs, plan.layoutName, classPath).LayoutDirAt? && plan.classText.None?)
  {
    var classPath, vmFile := ClassFile(directory, plan), ViewModelFile(directory, plan);
    if classPath !in files && !(vmFile.Some? && (vmFile.value in files || vmFile.value == classPath)) {
      CreationPastClassFilesAgain(files, dirs, directory, plan);
    }
  }

  /** When neither class file exists, createFiles goes on from the files that hold them empty. */
  lemma {:induction false} CreationPastClassFilesAgain(files: map<AbsPath, string>, dirs: set<AbsPath>, directory: AbsPath, plan: Plan)
    requires ClassFile(directory, plan) !in files
    requires ViewModelFile(directory, plan).Some? ==>
      ViewModelFile(directory, plan).value !in files && ViewModelFile(directory, plan).value != ClassFile(directory, plan)
    ensures Creation(files, dirs, directory, plan) ==
      AfterClassFiles(ClassFilesCreated(files, directory, plan), dirs, plan, ClassFile(directory, plan), ViewModelFile(directory, plan))
  {
  }

  // ---------------------------------------------------------------------------
  // The file steps
  // ---------------------------------------------------------------------------

  /** createFiles: create the class file and the ViewModel file, then the rest. */
  method CreateFiles(fs: FileSystem, directory: AbsPath, plan: Plan) returns (outcome: Outcome)
    modifies fs
    ensures Effect(outcome, fs.files) == Creation(old(fs.files), old(fs.dirs), directory, plan)
    ensures fs.dirs == old(fs.dirs)
  {
    var classFile := fs.CreateFile(directory, plan.className + ".kt");
    if classFile.None? {
      return Thrown;
    }
    var vmFile: Option<AbsPath> := None;
    if plan.viewModelName.Some? {
      vmFile := fs.CreateFile(directory, plan.viewModelName.value + ".kt");
      if vmFile.None? {
        return Thrown;
      }
    }
    outcome := FinishCreation(fs, plan, classFile.value, vmFile);
  }

  /** The rest of createFiles once the class files exist: the layout file, the rollback, the
      writes and the manifest. */
  method FinishCreation(fs: FileSystem, plan: Plan, classFile: AbsPath, vmFile: Option<AbsPath>) returns (outcome: Outcome)
    modifies fs
    ensures Effect(outcome, fs.files) == AfterClassFiles(old(fs.files), old(fs.dirs), plan, classFile, vmFile)
    ensures fs.dirs == old(fs.dirs)
  {
    var resLayoutPath := GetResLayoutPath(fs, plan.layoutName, classFile);
    if resLayoutPath.NoLayoutDir? {
      fs.Delete(classFile);
      if vmFile.Some? && fs.Exists(vmFile.value) {
        fs.Delete(vmFile.value);
      }
      return RolledBack;
    }
    if resLayoutPath.LayoutFileExists? {
      return Thrown;
    }
    var layoutFile := ChildPath(resLayoutPath.path, plan.layoutName + ".xml");
    var manifestFile := FindAndroidManifestFile(classFile);
    if plan.classText.None? {
      return Thrown;
    }
    fs.Write(classFile, plan.classText.value);
    fs.Write(layoutFile, plan.layoutText);
    if vmFile.Some? {
      fs.Write(vmFile.value, plan.viewModelText);
    }
    if plan.manifestEntry.Some? {
      UpdateManifestFile(fs, manifestFile, plan.manifestEntry.value);
    }
    return Completed;
  }
}
