/**
 * The files the creator dialogs touch: the project's files as a map from absolute path to
 * content, the directories the IDE resolves, and the file operations the dialogs perform
 * (PsiDirectory.createFile, File.delete, File.exists, Utils.writeContentToFile,
 * Utils.readCompleteFileAsString and Utils.getResLayoutPath).
 */
module Workspace {
  import opened Wrappers
  import opened JavaStrings
  import opened Paths

  /** How a dialog's createFiles ends. */
  datatype Outcome =
    | Completed   // returned normally; an IOException while reading the manifest is caught
    | RolledBack  // no layout directory: the created class files are deleted again
    | Thrown      // a runtime exception escaped: a file to create existed, or no binding name

  /** A createFiles run: how it ends and the files afterwards. */
  datatype Effect = Effect(outcome: Outcome, files: map<AbsPath, string>)

  /** What Utils.getResLayoutPath does for a class file. */
  datatype LayoutDir =
    | NoLayoutDir                 // no source root in the path, or the directory does not resolve
    | LayoutFileExists            // createFile throws: `<layoutName>.xml` is already there
    | LayoutDirAt(path: AbsPath)  // `<layoutName>.xml` was created in this directory

  /** The decision of Utils.getResLayoutPath, on the files and directories before the call. */
  function ResLayoutDir(files: map<AbsPath, string>, dirs: set<AbsPath>, layoutName: string, classFile: AbsPath): (r: LayoutDir)
    ensures r.NoLayoutDir? <==> FindAndroidResLayoutFile(classFile).None? || FindAndroidResLayoutFile(classFile).value !in dirs
    ensures r.LayoutDirAt? ==>
      Some(r.path) == FindAndroidResLayoutFile(classFile) && r.path in dirs &&
      ChildPath(r.path, layoutName + ".xml") !in files
    ensures r.LayoutFileExists? ==> ChildPath(FindAndroidResLayoutFile(classFile).value, layoutName + ".xml") in files
  {
    match FindAndroidResLayoutFile(classFile)
    case None => NoLayoutDir
    case Some(dir) =>
      if dir !in dirs then NoLayoutDir
      else if ChildPath(dir, layoutName + ".xml") in files then LayoutFileExists
      else LayoutDirAt(dir)
  }

  class FileSystem {
    /** Every existing file and its content. */
    var files: map<AbsPath, string>
    /** The directories that LocalFileSystem and PsiManager resolve. */
    var dirs: set<AbsPath>

    constructor(files0: map<AbsPath, string>, dirs0: set<AbsPath>)
      ensures files == files0 && dirs == dirs0
    {
      files := files0;
      dirs := dirs0;
    }

    /** File.exists. */
    predicate Exists(p: AbsPath)
      reads this
    {
      p in files
    }

    /** PsiDirectory.createFile: a new empty file `name` in `dir`; `None` stands for the
        IncorrectOperationException thrown when that file already exists. */
    method CreateFile(dir: AbsPath, name: string) returns (r: Option<AbsPath>)
      modifies this
      ensures dirs == old(dirs)
      ensures ChildPath(dir, name) in old(files) ==> r.None? && files == old(files)
      ensures ChildPath(dir, name) !in old(files) ==>
        r == Some(ChildPath(dir, name)) && files == old(files)[ChildPath(dir, name) := ""]
    {
      var p := ChildPath(dir, name);
      if p in files {
        return None;
      }
      files := files[p := ""];
      r := Some(p);
    }

    /** File.delete: afterwards the file does not exist. */
    method Delete(p: AbsPath)
      modifies this
      ensures files == old(files) - {p} && dirs == old(dirs)
    {
      files := files - {p};
    }

    /** Utils.writeContentToFile: the file holds exactly `content`. */
    method Write(p: AbsPath, content: string)
      modifies this
      ensures files == old(files)[p := content] && dirs == old(dirs)
    {
      files := files[p := content];
    }

    /** Utils.readCompleteFileAsString; `None` stands for the FileNotFoundException of a
        missing file. */
    method Read(p: AbsPath) returns (r: Option<string>)
      ensures p in files <==> r.Some?
      ensures r.Some? ==> r.value == files[p]
    {
      if p in files {
        r := Some(files[p]);
      } else {
        r := None;
      }
    }
  }

  /** Utils.getResLayoutPath: find the layout directory of the module that holds `classFile`
      and create `<layoutName>.xml` in it. */
  method GetResLayoutPath(fs: FileSystem, layoutName: string, classFile: AbsPath) returns (r: LayoutDir)
    modifies fs
    ensures r == ResLayoutDir(old(fs.files), old(fs.dirs), layoutName, classFile)
    ensures fs.dirs == old(fs.dirs)
    ensures r.LayoutDirAt? ==> fs.files == old(fs.files)[ChildPath(r.path, layoutName + ".xml") := ""]
    ensures !r.LayoutDirAt? ==> fs.files == old(fs.files)
  {
    var resLayoutPath := FindAndroidResLayoutFile(classFile);
    if resLayoutPath.None? {
      return NoLayoutDir;
    }
    if resLayoutPath.value !in fs.dirs {
      return NoLayoutDir;
    }
    var created := fs.CreateFile(resLayoutPath.value, layoutName + ".xml");
    if created.None? {
      return LayoutFileExists;
    }
    r := LayoutDirAt(resLayoutPath.value);
  }

  /** A layout directory is only found for a class file whose manifest is found too, and both
      sit in the same `src/main` directory. */
  lemma {:induction false} LayoutDirHasManifest(files: map<AbsPath, string>, dirs: set<AbsPath>, layoutName: string, classFile: AbsPath)
    requires !ResLayoutDir(files, dirs, layoutName, classFile).NoLayoutDir?
    ensures FindAndroidManifestFile(classFile).Some?
    ensures var m, d := FindAndroidManifestFile(classFile).value, FindAndroidResLayoutFile(classFile).value;
      m[..|m| - |ManifestSuffix|] == d[..|d| - |LayoutSuffix|]
  {
    ManifestAndLayoutAgree(classFile);
  }

  /** The layout file and the manifest are different files: below the shared module prefix
      one continues with `res/`, the other with `AndroidManifest.xml`. */
  lemma {:induction false} LayoutFileIsNotManifest(classFile: AbsPath, layoutName: string)
    requires FindAndroidResLayoutFile(classFile).Some?
    ensures FindAndroidManifestFile(classFile).Some?
    ensures ChildPath(FindAndroidResLayoutFile(classFile).value, layoutName + ".xml") != FindAndroidManifestFile(classFile).value
  {
    ManifestAndLayoutAgree(classFile);
    var prefix := SourceSetPrefix(classFile).value;
    var d := FindAndroidResLayoutFile(classFile).value;
    var l := ChildPath(d, layoutName + ".xml");
    var m := FindAndroidManifestFile(classFile).value;
    assert d == prefix + LayoutSuffix && m == prefix + ManifestSuffix;
    assert StartsWith(l, d);
    assert l[|prefix| + 9] == d[|prefix| + 9] == 'r';
    assert m[|prefix| + 9] == 'A';
  }
}
