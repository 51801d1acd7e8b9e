/**
 * Path arithmetic of Utils: where a source file's module root, package, manifest and layout
 * directory are, found by searching the absolute path for the source roots `src/main/java`
 * and `src/main/kotlin` (the Java root is always tried first).
 */
module Paths {
  import opened Wrappers
  import opened JavaStrings

  /** An absolute path as File.getAbsolutePath returns it. */
  type AbsPath = p: string | |p| > 0 && p[0] == '/' witness "/"

  const JavaRoot := "src/main/java"
  const KotlinRoot := "src/main/kotlin"
  const ManifestSuffix := "src/main/AndroidManifest.xml"
  const LayoutSuffix := "src/main/res/layout"

  /** new File(dir, name): the child path (the root directory gets no second `/`). */
  function ChildPath(dir: AbsPath, name: string): (r: AbsPath)
    ensures StartsWith(r, dir) && EndsWith(r, name)
  {
    if dir == "/" then dir + name else dir + "/" + name
  }

  /** An occurrence of a longer pattern is one of its first part. */
  lemma {:induction false} ContainsPrefix(s: string, p: string, q: string)
    requires Contains(s, p + q)
    ensures Contains(s, p)
    ensures IndexOf(s, p).value <= IndexOf(s, p + q).value
  {
    OccursAtPrefix(s, p, q, IndexOf(s, p + q).value);
  }

  /** The first occurrence in `s` stays the first occurrence when text is appended. */
  lemma {:induction false} IndexOfAppend(s: string, t: string, p: string)
    requires IndexOf(s, p).Some?
    ensures IndexOf(s + t, p) == IndexOf(s, p)
  {
    var i := IndexOf(s, p).value;
    assert (s + t)[i..i + |p|] == s[i..i + |p|];
    forall j: nat | j < i
      ensures !OccursAt(s + t, p, j)
    {
      assert !OccursAt(s, p, j);
      assert (s + t)[j..j + |p|] == s[j..j + |p|];
    }
    IndexOfIs(s + t, p, i);
  }

  /** A separator that cannot open an absolute path is not found at its first index. */
  lemma {:induction false} NoMatchAtRoot(path: AbsPath, sep: string)
    requires |sep| > 0 && sep[0] != '/'
    ensures !OccursAt(path, sep, 0)
  {
    if |sep| <= |path| {
      assert path[0..|sep|][0] == path[0] != sep[0];
    }
  }

  /** path.split(sep)[0] for a separator that cannot open an absolute path: the text before
      the first `sep`, or the whole path when there is none. */
  function FirstPiece(path: AbsPath, sep: string): (r: string)
    requires |sep| > 0 && sep[0] != '/'
    ensures r == match IndexOf(path, sep) case None => path case Some(i) => path[..i]
    ensures |r| > 0 && r[0] == '/'
  {
    SplitFirst(path, sep);
    NoMatchAtRoot(path, sep);
    Split(path, sep)[0]
  }

  /** The module directory prefix that findAndroidManifestFile and findAndroidResLayoutFile
      share: the path before the first `src/main/java/` when the path mentions
      `src/main/java`, else before the first `src/main/kotlin/` when it mentions
      `src/main/kotlin`, else none. */
  function SourceSetPrefix(path: AbsPath): (r: Option<string>)
    ensures r.None? <==> !Contains(path, JavaRoot) && !Contains(path, KotlinRoot)
    ensures r.Some? ==> StartsWith(path, r.value) && |r.value| > 0 && r.value[0] == '/'
  {
    if Contains(path, JavaRoot) then Some(FirstPiece(path, JavaRoot + "/"))
    else if Contains(path, KotlinRoot) then Some(FirstPiece(path, KotlinRoot + "/"))
    else None
  }

  /** Utils.findAndroidManifestFile. */
  function FindAndroidManifestFile(path: AbsPath): Option<AbsPath> {
    match SourceSetPrefix(path)
    case None => None
    case Some(prefix) => Some(prefix + ManifestSuffix)
  }

  /** Utils.findAndroidResLayoutFile. */
  function FindAndroidResLayoutFile(path: AbsPath): Option<AbsPath> {
    match SourceSetPrefix(path)
    case None => None
    case Some(prefix) => Some(prefix + LayoutSuffix)
  }

  /** The manifest and the layout directory are found for the same paths, under the same
      module directory. */
  lemma {:induction false} ManifestAndLayoutAgree(path: AbsPath)
    ensures FindAndroidManifestFile(path).None? <==> !Contains(path, JavaRoot) && !Contains(path, KotlinRoot)
    ensures FindAndroidManifestFile(path).None? <==> FindAndroidResLayoutFile(path).None?
    ensures FindAndroidManifestFile(path).Some? ==>
      var m, l := FindAndroidManifestFile(path).value, FindAndroidResLayoutFile(path).value;
      m[..|m| - |ManifestSuffix|] == l[..|l| - |LayoutSuffix|] &&
      StartsWith(path, m[..|m| - |ManifestSuffix|])
  {
    if SourceSetPrefix(path).Some? {
      var prefix := SourceSetPrefix(path).value;
      assert (prefix + ManifestSuffix)[..|prefix|] == prefix;
      assert (prefix + LayoutSuffix)[..|prefix|] == prefix;
    }
  }

  /** A file under a Java source root: the manifest sits in the `src/main` directory that
      holds that root, i.e. it shares the path up to and including `src/main/`. */
  lemma {:induction false} ManifestBesideJavaRoot(path: AbsPath, i: nat)
    requires IndexOf(path, JavaRoot + "/") == Some(i)
    ensures FindAndroidManifestFile(path) == Some(path[..i] + ManifestSuffix)
    ensures FindAndroidResLayoutFile(path) == Some(path[..i] + LayoutSuffix)
    ensures path[..i + 9] == path[..i] + "src/main/" == FindAndroidManifestFile(path).value[..i + 9]
  {
    ContainsPrefix(path, JavaRoot, "/");
    assert |JavaRoot + "/"| == 14;
    assert path[i..i + 14] == JavaRoot + "/";
    assert path[i..i + 9] == path[i..i + 14][..9] == "src/main/";
    assert path[..i + 9] == path[..i] + path[i..i + 9];
    var m := path[..i] + ManifestSuffix;
    assert m[..i + 9] == path[..i] + ManifestSuffix[..9];
  }

  /** A file under a Kotlin source root of a path that never mentions the Java root. */
  lemma {:induction false} ManifestBesideKotlinRoot(path: AbsPath, i: nat)
    requires !Contains(path, JavaRoot) && IndexOf(path, KotlinRoot + "/") == Some(i)
    ensures FindAndroidManifestFile(path) == Some(path[..i] + ManifestSuffix)
    ensures FindAndroidResLayoutFile(path) == Some(path[..i] + LayoutSuffix)
  {
    ContainsPrefix(path, KotlinRoot, "/");
  }

  /** When the path mentions `src/main/java` but never `src/main/java/` (the root directory
      itself, or a name such as `src/main/javadoc`), split finds no separator and the whole
      path is taken as the module directory. */
  lemma {:induction false} ManifestOfUnsplitPath(path: AbsPath)
    requires Contains(path, JavaRoot) && !Contains(path, JavaRoot + "/")
    ensures FindAndroidManifestFile(path) == Some(path + ManifestSuffix)
  {
  }

  /** Utils.fileHeader: the path before the first `src/main/java`, else before the first
      `src/main/kotlin`, else the empty string. It groups package directories by module. */
  function FileHeader(path: AbsPath): (r: string)
    ensures StartsWith(path, r)
    ensures Contains(path, JavaRoot) ==> r == path[..IndexOf(path, JavaRoot).value]
    ensures !Contains(path, JavaRoot) && Contains(path, KotlinRoot) ==>
      r == path[..IndexOf(path, KotlinRoot).value]
    ensures !Contains(path, JavaRoot) && !Contains(path, KotlinRoot) ==> r == ""
  {
    if Contains(path, JavaRoot) then FirstPiece(path, JavaRoot)
    else if Contains(path, KotlinRoot) then FirstPiece(path, KotlinRoot)
    else ""
  }

  /** Every path below a directory that already mentions a source root has that directory's
      header: a source root and all its package directories fall into one group. */
  lemma {:induction false} FileHeaderOfDescendant(dir: AbsPath, rest: string)
    requires Contains(dir, JavaRoot) || (Contains(dir, KotlinRoot) && !Contains(dir + rest, JavaRoot))
    ensures FileHeader(dir + rest) == FileHeader(dir)
  {
    var path: AbsPath := dir + rest;
    if Contains(dir, JavaRoot) {
      IndexOfAppend(dir, rest, JavaRoot);
      assert path[..IndexOf(dir, JavaRoot).value] == dir[..IndexOf(dir, JavaRoot).value];
    } else {
      IndexOfAppend(dir, rest, KotlinRoot);
      assert path[..IndexOf(dir, KotlinRoot).value] == dir[..IndexOf(dir, KotlinRoot).value];
    }
  }

  /** Utils.fileToPackage: `path.split(root + "/")[1]`; `None` stands for the
      ArrayIndexOutOfBoundsException when that piece does not exist, and a path under no
      source root yields the empty string. */
  function FileToPackage(path: AbsPath): (r: Option<string>)
    ensures !Contains(path, JavaRoot) && !Contains(path, KotlinRoot) ==> r == Some("")
  {
    if Contains(path, JavaRoot) then At(Split(path, JavaRoot + "/"), 1)
    else if Contains(path, KotlinRoot) then At(Split(path, KotlinRoot + "/"), 1)
    else Some("")
  }

  /** A package directory below a Java source root yields its slash-separated package. */
  lemma {:induction false} PackageBelowJavaRoot(path: AbsPath, i: nat, pkg: string)
    requires IndexOf(path, JavaRoot + "/") == Some(i)
    requires path == path[..i] + JavaRoot + "/" + pkg
    requires pkg != "" && !Contains(pkg, JavaRoot + "/")
    ensures FileToPackage(path) == Some(pkg)
  {
    ContainsPrefix(path, JavaRoot, "/");
    assert path[i + 14..] == pkg;
    SplitOnce(path, JavaRoot + "/", i);
  }

  /** A package directory below a Kotlin source root of a path without the Java root. */
  lemma {:induction false} PackageBelowKotlinRoot(path: AbsPath, i: nat, pkg: string)
    requires !Contains(path, JavaRoot) && IndexOf(path, KotlinRoot + "/") == Some(i)
    requires path == path[..i] + KotlinRoot + "/" + pkg
    requires pkg != "" && !Contains(pkg, KotlinRoot + "/")
    ensures FileToPackage(path) == Some(pkg)
  {
    ContainsPrefix(path, KotlinRoot, "/");
    assert path[i + 16..] == pkg;
    SplitOnce(path, KotlinRoot + "/", i);
  }

  /** The source root directory itself has no second piece: fileToPackage throws. */
  lemma {:induction false} PackageOfSourceRootFails(path: AbsPath)
    requires Contains(path, JavaRoot) && !Contains(path, JavaRoot + "/")
    ensures FileToPackage(path).None?
  {
  }

  /** Utils.isSrcFile: the lower-cased path ends in one of the source roots. */
  predicate IsSrcFile(path: string) {
    EndsWith(ToLower(path), JavaRoot) || EndsWith(ToLower(path), KotlinRoot)
  }

  lemma {:induction false} ToLowerAppend(a: string, b: string)
    ensures ToLower(a + b) == ToLower(a) + ToLower(b)
  {
  }

  /** The last `|root|` characters of `path` are `root` in some letter case. */
  predicate EndsInAnyCase(path: string, root: string) {
    |root| <= |path| && ToLower(path[|path| - |root|..]) == root
  }

  /** Every source root directory is a source file, whatever the case of its path and
      whatever comes before it; and a path is a source file exactly when its ending is one
      of the two roots in some letter case, so nothing with a different ending is. */
  lemma {:induction false} SrcFileIsSourceRoot(base: string, path: string)
    ensures IsSrcFile(base + JavaRoot) && IsSrcFile(base + KotlinRoot)
    ensures IsSrcFile(path) <==> IsSrcFile(ToLower(path))
    ensures IsSrcFile(path) <==> EndsInAnyCase(path, JavaRoot) || EndsInAnyCase(path, KotlinRoot)
  {
    ToLowerAppend(base, JavaRoot);
    ToLowerAppend(base, KotlinRoot);
    assert ToLower(JavaRoot) == JavaRoot;
    assert ToLower(KotlinRoot) == KotlinRoot;
    assert ToLower(ToLower(path)) == ToLower(path);
    if |JavaRoot| <= |path| {
      assert ToLower(path)[|path| - |JavaRoot|..] == ToLower(path[|path| - |JavaRoot|..]);
    }
    if |KotlinRoot| <= |path| {
      assert ToLower(path)[|path| - |KotlinRoot|..] == ToLower(path[|path| - |KotlinRoot|..]);
    }
  }
}
