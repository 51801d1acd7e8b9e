/**
 * The project scan of Utils.findAndGroupPkgList: find the source roots under the project
 * directory (findAllSrcMainJavaFiles), collect every package directory below them
 * (findPackageFiles), and group those directories by module (fileHeader).
 *
 * The directory tree is a value; a directory's children are listed in the order listFiles
 * returns them, which the model takes as given.
 */
module ProjectTree {
  import opened Wrappers
  import opened JavaStrings
  import opened Paths

  /** A file-system entry: File.listFiles gives the children of a directory and null for
      anything else. */
  datatype Entry = Dir(path: AbsPath, children: seq<Entry>) | File(path: AbsPath)

  // ---------------------------------------------------------------------------
  // Specification of the two walkers
  // ---------------------------------------------------------------------------

  /** Source roots found by findAllSrcMainJavaFiles among `es` and below: a directory whose
      path is a source root is taken and not entered, other directories are entered, plain
      files are skipped. */
  function SrcRootsIn(es: seq<Entry>): seq<Entry>
    decreases es
  {
    if es == [] then []
    else
      var f := es[0];
      (match f
       case File(_) => []
       case Dir(p, cs) => if IsSrcFile(p) then [f] else SrcRootsIn(cs))
      + SrcRootsIn(es[1..])
  }

  /** What findAllSrcMainJavaFiles(parent) appends. */
  function SrcRoots(parent: Entry): seq<Entry> {
    match parent
    case File(_) => []
    case Dir(_, cs) => SrcRootsIn(cs)
  }

  /** Package directories found by findPackageFiles among `es` and below, in pre-order: each
      directory that is not itself a source root, then its subtree. */
  function PackageDirsIn(es: seq<Entry>): seq<AbsPath>
    decreases es
  {
    if es == [] then []
    else
      var f := es[0];
      (match f
       case File(_) => []
       case Dir(p, cs) => (if IsSrcFile(p) then [] else [p]) + PackageDirsIn(cs))
      + PackageDirsIn(es[1..])
  }

  /** Reference listing: every entry of `es` and below, in pre-order. */
  function PreOrder(es: seq<Entry>): seq<Entry>
    decreases es
  {
    if es == [] then []
    else
      var f := es[0];
      [f] + (match f case File(_) => [] case Dir(_, cs) => PreOrder(cs)) + PreOrder(es[1..])
  }

  /** The paths of the directories in `xs` that are not source roots, in order. */
  function NonRootDirs(xs: seq<Entry>): seq<AbsPath> {
    if xs == [] then []
    else
      (if xs[0].Dir? && !IsSrcFile(xs[0].path) then [xs[0].path] else []) + NonRootDirs(xs[1..])
  }

  lemma {:induction false} NonRootDirsAppend(xs: seq<Entry>, ys: seq<Entry>)
    ensures NonRootDirs(xs + ys) == NonRootDirs(xs) + NonRootDirs(ys)
    decreases |xs|
  {
    if xs != [] {
      assert (xs + ys)[1..] == xs[1..] + ys;
      NonRootDirsAppend(xs[1..], ys);
    } else {
      assert xs + ys == ys;
    }
  }

  /** findPackageFiles collects exactly the directories of the tree that are not source
      roots, in pre-order. */
  lemma {:induction false} PackageDirsArePreOrderDirs(es: seq<Entry>)
    ensures PackageDirsIn(es) == NonRootDirs(PreOrder(es))
    decreases es
  {
    if es != [] {
      var f := es[0];
      PackageDirsArePreOrderDirs(es[1..]);
      match f {
        case File(_) =>
          NonRootDirsAppend([f], PreOrder(es[1..]));
        case Dir(p, cs) =>
          PackageDirsArePreOrderDirs(cs);
          NonRootDirsAppend([f] + PreOrder(cs), PreOrder(es[1..]));
          NonRootDirsAppend([f], PreOrder(cs));
      }
    }
  }

  /** Every source root found is a directory whose path ends in a source root. */
  lemma {:induction false} SrcRootsAreSourceDirs(es: seq<Entry>)
    ensures forall k :: 0 <= k < |SrcRootsIn(es)| ==>
      SrcRootsIn(es)[k].Dir? && IsSrcFile(SrcRootsIn(es)[k].path)
    decreases es
  {
    if es != [] {
      SrcRootsAreSourceDirs(es[1..]);
      if es[0].Dir? {
        SrcRootsAreSourceDirs(es[0].children);
      }
    }
  }

  lemma {:induction false} SrcRootsAppend(xs: seq<Entry>, ys: seq<Entry>)
    ensures SrcRootsIn(xs + ys) == SrcRootsIn(xs) + SrcRootsIn(ys)
    decreases |xs|
  {
    if xs != [] {
      assert (xs + ys)[0] == xs[0];
      assert (xs + ys)[1..] == xs[1..] + ys;
      SrcRootsAppend(xs[1..], ys);
    } else {
      assert xs + ys == ys;
    }
  }

  /** Reference listing: the entries of `es` and below in pre-order, where the walk does not
      enter a directory whose path is a source root. */
  function Reached(es: seq<Entry>): seq<Entry>
    decreases es
  {
    if es == [] then []
    else
      var f := es[0];
      [f] + (match f case File(_) => [] case Dir(p, cs) => if IsSrcFile(p) then [] else Reached(cs))
      + Reached(es[1..])
  }

  /** The directories in `xs` whose path is a source root, in order. */
  function RootsAmong(xs: seq<Entry>): seq<Entry> {
    if xs == [] then []
    else (if xs[0].Dir? && IsSrcFile(xs[0].path) then [xs[0]] else []) + RootsAmong(xs[1..])
  }

  lemma {:induction false} RootsAmongAppend(xs: seq<Entry>, ys: seq<Entry>)
    ensures RootsAmong(xs + ys) == RootsAmong(xs) + RootsAmong(ys)
    decreases |xs|
  {
    if xs != [] {
      assert (xs + ys)[1..] == xs[1..] + ys;
      RootsAmongAppend(xs[1..], ys);
    } else {
      assert xs + ys == ys;
    }
  }

  /** findAllSrcMainJavaFiles finds exactly the source root directories that a pre-order walk
      meets when it does not enter source roots, in the order it meets them. */
  lemma {:induction false} SrcRootsAreReachedRoots(es: seq<Entry>)
    ensures SrcRootsIn(es) == RootsAmong(Reached(es))
    decreases es
  {
    if es != [] {
      var f := es[0];
      SrcRootsAreReachedRoots(es[1..]);
      match f {
        case File(_) =>
          RootsAmongAppend([f], Reached(es[1..]));
        case Dir(p, cs) =>
          if IsSrcFile(p) {
            RootsAmongAppend([f], Reached(es[1..]));
          } else {
            SrcRootsAreReachedRoots(cs);
            RootsAmongAppend([f] + Reached(cs), Reached(es[1..]));
            RootsAmongAppend([f], Reached(cs));
          }
      }
    }
  }

  /** Nothing is missed: a directory of `es` that is a source root is found, and one that is
      not is entered, so every source root found below it is found. */
  lemma {:induction false} SrcRootsFindsEvery(es: seq<Entry>, k: nat)
    requires k < |es| && es[k].Dir?
    ensures IsSrcFile(es[k].path) ==> es[k] in SrcRootsIn(es)
    ensures !IsSrcFile(es[k].path) ==>
      forall e :: e in SrcRootsIn(es[k].children) ==> e in SrcRootsIn(es)
  {
    var f := es[k];
    assert es == es[..k] + ([f] + es[k + 1..]);
    SrcRootsAppend(es[..k], [f] + es[k + 1..]);
    SrcRootsAppend([f], es[k + 1..]);
    assert [f][1..] == [];
    assert SrcRootsIn([f]) == if IsSrcFile(f.path) then [f] else SrcRootsIn(f.children);
  }

  /** One more child: its source roots follow those of the children before it. */
  lemma {:induction false} SrcRootsStep(children: seq<Entry>, i: nat)
    requires i < |children|
    ensures SrcRootsIn(children[..i + 1]) == SrcRootsIn(children[..i]) + SrcRootsIn([children[i]])
    ensures SrcRootsIn([children[i]]) ==
      if children[i].File? then [] else if IsSrcFile(children[i].path) then [children[i]] else SrcRootsIn(children[i].children)
  {
    SrcRootsAppend(children[..i], [children[i]]);
    assert children[..i + 1] == children[..i] + [children[i]];
    assert [children[i]][1..] == [];
  }

  /** One more child: its package directories follow those of the children before it. */
  lemma {:induction false} PackageDirsStep(children: seq<Entry>, i: nat)
    requires i < |children|
    ensures PackageDirsIn(children[..i + 1]) == PackageDirsIn(children[..i]) + PackageDirsIn([children[i]])
  {
    PackageDirsAppend(children[..i], [children[i]]);
    assert children[..i + 1] == children[..i] + [children[i]];
  }

  lemma {:induction false} PackageDirsAppend(xs: seq<Entry>, ys: seq<Entry>)
    ensures PackageDirsIn(xs + ys) == PackageDirsIn(xs) + PackageDirsIn(ys)
    decreases |xs|
  {
    if xs != [] {
      assert (xs + ys)[0] == xs[0];
      assert (xs + ys)[1..] == xs[1..] + ys;
      PackageDirsAppend(xs[1..], ys);
    } else {
      assert xs + ys == ys;
    }
  }

  /** Package directories below each of several roots, one root after another. */
  function PackageDirsOfAll(roots: seq<Entry>): seq<AbsPath> {
    if roots == [] then []
    else PackageDirsOfAll(roots[..|roots| - 1]) + PackageDirsIn([roots[|roots| - 1]])
  }

  // ---------------------------------------------------------------------------
  // Specification of the grouping loop
  // ---------------------------------------------------------------------------

  /** One step of the grouping loop: append the directory to the list under its header,
      creating the list when the header is new. */
  function AddToGroup(group: map<string, seq<AbsPath>>, file: AbsPath): map<string, seq<AbsPath>> {
    var key := FileHeader(file);
    if key in group then group[key := group[key] + [file]] else group[key := [file]]
  }

  /** The grouping loop over `files`, in order. */
  function GroupAll(group: map<string, seq<AbsPath>>, files: seq<AbsPath>): map<string, seq<AbsPath>> {
    if files == [] then group
    else AddToGroup(GroupAll(group, files[..|files| - 1]), files[|files| - 1])
  }

  /** Reference definition: the files of `files` whose header is `key`, in order. */
  function WithHeader(files: seq<AbsPath>, key: string): (r: seq<AbsPath>)
    ensures |r| <= |files|
  {
    if files == [] then []
    else
      var last := files[|files| - 1];
      WithHeader(files[..|files| - 1], key) + (if FileHeader(last) == key then [last] else [])
  }

  function Headers(files: seq<AbsPath>): set<string> {
    set f | f in files :: FileHeader(f)
  }

  /** The headers of a list are those of all but its last file and the last file's. */
  lemma {:induction false} HeadersSnoc(files: seq<AbsPath>)
    requires files != []
    ensures Headers(files) == Headers(files[..|files| - 1]) + {FileHeader(files[|files| - 1])}
  {
    var init, last := files[..|files| - 1], files[|files| - 1];
    assert files == init + [last];
  }

  /** Grouping adds the headers met to the keys. */
  lemma {:induction false} GroupAllKeys(group: map<string, seq<AbsPath>>, files: seq<AbsPath>)
    ensures GroupAll(group, files).Keys == group.Keys + Headers(files)
    decreases |files|
  {
    if files != [] {
      var init, last := files[..|files| - 1], files[|files| - 1];
      GroupAllKeys(group, init);
      HeadersSnoc(files);
    } else {
      assert Headers(files) == {};
    }
  }

  /** Grouping puts each directory into exactly the list of its header, after what that list
      already held, keeping the order in which the directories were found. */
  lemma {:induction false} GroupAllList(group: map<string, seq<AbsPath>>, files: seq<AbsPath>, key: string)
    requires key in GroupAll(group, files)
    ensures GroupAll(group, files)[key] == (if key in group then group[key] else []) + WithHeader(files, key)
    decreases |files|
  {
    if files != [] {
      var init, last := files[..|files| - 1], files[|files| - 1];
      var before := GroupAll(group, init);
      var added := if FileHeader(last) == key then [last] else [];
      assert GroupAll(group, files) == AddToGroup(before, last);
      assert WithHeader(files, key) == WithHeader(init, key) + added;
      AddToGroupAt(before, last, key);
      if key in before {
        GroupAllList(group, init, key);
        AppendAssoc(if key in group then group[key] else [], WithHeader(init, key), added);
      } else {
        GroupAllKeys(group, init);
        assert key !in group && key == FileHeader(last);
        WithHeaderEmpty(init, key);
      }
    }
  }

  /** One grouping step at one key: the directory joins the list of its own header only. */
  lemma {:induction false} AddToGroupAt(group: map<string, seq<AbsPath>>, file: AbsPath, key: string)
    requires key in AddToGroup(group, file)
    ensures AddToGroup(group, file)[key] ==
      (if key in group then group[key] else []) + (if FileHeader(file) == key then [file] else [])
  {
  }

  /** With nothing grouped before, a directory appears in the list of its own header and in
      no other, as often as it was found. */
  lemma {:induction false} GroupedOnce(files: seq<AbsPath>, f: AbsPath)
    requires f in files
    ensures FileHeader(f) in GroupAll(map[], files)
    ensures f in GroupAll(map[], files)[FileHeader(f)]
    ensures forall key :: key in GroupAll(map[], files) && key != FileHeader(f) ==>
      f !in GroupAll(map[], files)[key]
  {
    GroupAllKeys(map[], files);
    assert FileHeader(f) in Headers(files);
    GroupAllList(map[], files, FileHeader(f));
    WithHeaderMembers(files, FileHeader(f));
    forall key | key in GroupAll(map[], files) && key != FileHeader(f)
      ensures f !in GroupAll(map[], files)[key]
    {
      GroupAllList(map[], files, key);
      WithHeaderMembers(files, key);
    }
  }

  lemma {:induction false} WithHeaderEmpty(files: seq<AbsPath>, key: string)
    requires key !in Headers(files)
    ensures WithHeader(files, key) == []
    decreases |files|
  {
    if files != [] {
      var init := files[..|files| - 1];
      assert Headers(init) <= Headers(files);
      WithHeaderEmpty(init, key);
    }
  }

  lemma {:induction false} WithHeaderMembers(files: seq<AbsPath>, key: string)
    ensures forall f :: f in WithHeader(files, key) <==> f in files && FileHeader(f) == key
    decreases |files|
  {
    if files != [] {
      var init, last := files[..|files| - 1], files[|files| - 1];
      WithHeaderMembers(init, key);
      assert files == init + [last];
    }
  }

  // ---------------------------------------------------------------------------
  // The caller-owned collections and the imperative walkers
  // ---------------------------------------------------------------------------

  /** The three collections findAndGroupPkgList fills in place: the source roots, the package
      directories and the package directories grouped by module header. */
  class PackageScan {
    var srcJavaFiles: seq<Entry>
    var packageFiles: seq<AbsPath>
    var packageGroup: map<string, seq<AbsPath>>

    constructor(srcJavaFiles: seq<Entry>, packageFiles: seq<AbsPath>, packageGroup: map<string, seq<AbsPath>>)
      ensures this.srcJavaFiles == srcJavaFiles
      ensures this.packageFiles == packageFiles
      ensures this.packageGroup == packageGroup
    {
      this.srcJavaFiles := srcJavaFiles;
      this.packageFiles := packageFiles;
      this.packageGroup := packageGroup;
    }

    /** Utils.findAllSrcMainJavaFiles: append the source roots below `parent`. */
    method FindAllSrcMainJavaFiles(parent: Entry)
      modifies this`srcJavaFiles
      ensures srcJavaFiles == old(srcJavaFiles) + SrcRoots(parent)
      decreases parent
    {
      if parent.File? {
        return;
      }
      var children := parent.children;
      var i := 0;
      while i < |children|
        invariant 0 <= i <= |children|
        invariant srcJavaFiles == old(srcJavaFiles) + SrcRootsIn(children[..i])
      {
        var f := children[i];
        SrcRootsStep(children, i);
        ghost var before := srcJavaFiles;
        if f.Dir? {
          if IsSrcFile(f.path) {
            srcJavaFiles := srcJavaFiles + [f];
          } else if |f.children| > 0 {
            FindAllSrcMainJavaFiles(f);
          }
        }
        assert srcJavaFiles == before + SrcRootsIn([f]);
        i := i + 1;
      }
      assert children[..i] == children;
    }

    /** Utils.findPackageFiles: append `parent` when it is a directory but not a source root,
        then walk its children. */
    method FindPackageFiles(parent: Entry)
      modifies this`packageFiles
      ensures packageFiles == old(packageFiles) + PackageDirsIn([parent])
      decreases parent
    {
      if parent.Dir? && !IsSrcFile(parent.path) {
        packageFiles := packageFiles + [parent.path];
      }
      assert [parent][1..] == [];
      if parent.Dir? && |parent.children| > 0 {
        var children := parent.children;
        ghost var before := packageFiles;
        var i := 0;
        while i < |children|
          invariant 0 <= i <= |children|
          invariant packageFiles == before + PackageDirsIn(children[..i])
        {
          PackageDirsStep(children, i);
          FindPackageFiles(children[i]);
          i := i + 1;
        }
        assert children[..i] == children;
      }
    }

    /** Utils.findAndGroupPkgList: scan the project directory for source roots, collect the
        package directories under every listed source root, and group every listed package
        directory by its header. */
    method FindAndGroupPkgList(project: Entry)
      modifies this
      ensures srcJavaFiles == old(srcJavaFiles) +
        (if project.Dir? && |project.children| > 0 then SrcRoots(project) else [])
      ensures packageFiles == old(packageFiles) + PackageDirsOfAll(srcJavaFiles)
      ensures packageGroup == GroupAll(old(packageGroup), packageFiles)
    {
      if project.Dir? && |project.children| > 0 {
        FindAllSrcMainJavaFiles(project);
      }
      if |srcJavaFiles| > 0 {
        FindPackageFilesOfAll();
      }
      if |packageFiles| > 0 {
        GroupPackageFiles();
      }
    }

    /** `srcJavaFiles.forEach(file -> findPackageFiles(file, packageFiles))`. */
    method FindPackageFilesOfAll()
      modifies this`packageFiles
      ensures packageFiles == old(packageFiles) + PackageDirsOfAll(srcJavaFiles)
    {
      var roots := srcJavaFiles;
      var i := 0;
      while i < |roots|
        invariant 0 <= i <= |roots|
        invariant srcJavaFiles == roots
        invariant packageFiles == old(packageFiles) + PackageDirsOfAll(roots[..i])
      {
        assert roots[..i + 1][..i] == roots[..i];
        FindPackageFiles(roots[i]);
        i := i + 1;
      }
      assert roots[..i] == roots;
    }

    /** The grouping loop: each package directory joins the list under its header. */
    method GroupPackageFiles()
      modifies this`packageGroup
      ensures packageGroup == GroupAll(old(packageGroup), packageFiles)
    {
      var files := packageFiles;
      var j := 0;
      while j < |files|
        invariant 0 <= j <= |files|
        invariant packageFiles == files
        invariant packageGroup == GroupAll(old(packageGroup), files[..j])
      {
        assert files[..j + 1][..j] == files[..j];
        var hdKey := FileHeader(files[j]);
        if hdKey in packageGroup {
          packageGroup := packageGroup[hdKey := packageGroup[hdKey] + [files[j]]];
        } else {
          packageGroup := packageGroup[hdKey := [files[j]]];
        }
        j := j + 1;
      }
      assert files[..j] == files;
    }
  }
}
