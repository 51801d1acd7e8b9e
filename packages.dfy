/**
 * Package candidates of Utils: pkgToList expands a slash-separated package into the chain of
 * its ancestors, and findMatchedPkgList builds the deduplicated candidate list for a chosen
 * directory from the package directories grouped under its module header.
 */
module Packages {
  import opened Wrappers
  import opened JavaStrings
  import opened Paths

  // ---------------------------------------------------------------------------
  // pkgToList
  // ---------------------------------------------------------------------------

  /** The non-empty pieces, in order (the stream filter `s.length() > 0`). */
  function NonEmpty(xs: seq<string>): (r: seq<string>)
    ensures forall k :: 0 <= k < |r| ==> r[k] != ""
  {
    if xs == [] then [] else (if xs[0] == "" then [] else [xs[0]]) + NonEmpty(xs[1..])
  }

  /** Segments joined by `/`. */
  function JoinSlash(xs: seq<string>): string {
    if xs == [] then ""
    else if |xs| == 1 then xs[0]
    else JoinSlash(xs[..|xs| - 1]) + "/" + xs[|xs| - 1]
  }

  /** The one-cell accumulator of pkgToList after the segments `done`: each followed by `/`. */
  function Accumulated(done: seq<string>): string {
    if done == [] then "" else JoinSlash(done) + "/"
  }

  /** The forEach of pkgToList from accumulator `acc`: append the segment and `/`, then record
      the accumulator without its last character. */
  function ChainFrom(acc: string, segs: seq<string>): (r: seq<string>)
    ensures |r| == |segs|
    decreases |segs|
  {
    if segs == [] then []
    else
      var next := acc + segs[0] + "/";
      [next[..|next| - 1]] + ChainFrom(next, segs[1..])
  }

  /** Utils.pkgToList. */
  function PkgToList(pkg: string): seq<string> {
    if Contains(pkg, "/") then ChainFrom("", NonEmpty(Split(pkg, "/"))) else [pkg]
  }

  lemma {:induction false} JoinSlashSnoc(xs: seq<string>, x: string)
    ensures JoinSlash(xs + [x]) == Accumulated(xs) + x
  {
    assert (xs + [x])[..|xs|] == xs;
  }

  /** One step of ChainFrom: its head is the accumulator with the first segment, and its
      tail is the chain from the extended accumulator. */
  lemma {:induction false} ChainFromCons(acc: string, segs: seq<string>)
    requires segs != []
    ensures var next := acc + segs[0] + "/";
      ChainFrom(acc, segs) == [next[..|next| - 1]] + ChainFrom(next, segs[1..])
  {
  }

  /** Moving the first segment over to `pre`. */
  lemma {:induction false} ShiftSegment(pre: seq<string>, segs: seq<string>, k: nat)
    requires 0 < k < |segs|
    ensures pre + segs[..k + 1] == (pre + [segs[0]]) + segs[1..][..k]
  {
    assert segs[..k + 1] == [segs[0]] + segs[1..][..k];
    AppendAssoc(pre, [segs[0]], segs[1..][..k]);
  }

  /** The chain from the accumulator of `pre`: element k joins `pre` and the first k+1
      segments. */
  lemma {:induction false} ChainFromJoins(pre: seq<string>, segs: seq<string>, k: nat)
    requires k < |segs|
    ensures ChainFrom(Accumulated(pre), segs)[k] == JoinSlash(pre + segs[..k + 1])
    decreases k
  {
    var x := segs[0];
    var next := Accumulated(pre) + x + "/";
    ChainFromCons(Accumulated(pre), segs);
    AccumulatedSnoc(pre, x);
    if k == 0 {
      assert segs[..1] == [x];
    } else {
      ChainFromJoins(pre + [x], segs[1..], k - 1);
      ShiftSegment(pre, segs, k);
    }
  }

  /** One more segment extends the accumulator by the segment and `/`. */
  lemma {:induction false} AccumulatedSnoc(pre: seq<string>, x: string)
    ensures Accumulated(pre + [x]) == Accumulated(pre) + x + "/"
    ensures (Accumulated(pre) + x + "/")[..|Accumulated(pre) + x + "/"| - 1] == JoinSlash(pre + [x])
  {
    JoinSlashSnoc(pre, x);
  }

  /** Element k of pkgToList's chain for segments `segs`. */
  lemma {:induction false} ChainElement(segs: seq<string>, k: nat)
    requires k < |segs| && forall i :: 0 <= i < |segs| ==> segs[i] != ""
    ensures ChainFrom("", segs)[k] == JoinSlash(segs[..k + 1])
    ensures ChainFrom("", segs)[k] == Accumulated(segs[..k]) + segs[k]
    ensures ChainFrom("", segs)[k] != ""
  {
    ChainFromJoins([], segs, k);
    assert [] + segs[..k + 1] == segs[..k + 1];
    TakeSnoc(segs, k);
    JoinSlashSnoc(segs[..k], segs[k]);
  }

  /** Consecutive elements: the next one is the previous one, `/`, and one more segment. */
  lemma {:induction false} ChainStep(segs: seq<string>, k: nat)
    requires k + 1 < |segs| && forall i :: 0 <= i < |segs| ==> segs[i] != ""
    ensures var r := ChainFrom("", segs);
      StartsWith(r[k + 1], r[k] + "/") && |r[k]| + 1 < |r[k + 1]|
  {
    var r := ChainFrom("", segs);
    ChainElement(segs, k);
    ChainElement(segs, k + 1);
    assert segs[..k + 1] != [];
    assert Accumulated(segs[..k + 1]) == r[k] + "/";
    assert (r[k] + "/" + segs[k + 1])[..|r[k]| + 1] == r[k] + "/";
  }

  /** pkgToList: a package without `/` is its own only element; otherwise element k is the
      first k+1 non-empty segments joined by `/`, so each element followed by `/` begins the
      next, every element is non-empty, and the last is the whole package with its empty
      segments dropped. */
  lemma {:induction false} PkgToListIsAncestorChain(pkg: string)
    ensures !Contains(pkg, "/") ==> PkgToList(pkg) == [pkg]
    ensures Contains(pkg, "/") ==>
      var segs, r := NonEmpty(Split(pkg, "/")), PkgToList(pkg);
      |r| == |segs| &&
      (forall k :: 0 <= k < |r| ==> r[k] == JoinSlash(segs[..k + 1]) && r[k] != "") &&
      (forall k :: 0 <= k < |r| - 1 ==> StartsWith(r[k + 1], r[k] + "/") && |r[k]| + 1 < |r[k + 1]|) &&
      (r != [] ==> r[|r| - 1] == JoinSlash(segs))
  {
    if Contains(pkg, "/") {
      var segs := NonEmpty(Split(pkg, "/"));
      var r := PkgToList(pkg);
      forall k | 0 <= k < |r|
        ensures r[k] == JoinSlash(segs[..k + 1]) && r[k] != ""
      {
        ChainElement(segs, k);
      }
      forall k | 0 <= k < |r| - 1
        ensures StartsWith(r[k + 1], r[k] + "/") && |r[k]| + 1 < |r[k + 1]|
      {
        ChainStep(segs, k);
      }
      if r != [] {
        assert segs[..|r|] == segs;
      }
    }
  }

  // ---------------------------------------------------------------------------
  // findMatchedPkgList
  // ---------------------------------------------------------------------------

  /** The inner forEach of findMatchedPkgList: add each non-empty element not yet present. */
  function AddNew(acc: seq<string>, xs: seq<string>): seq<string> {
    if xs == [] then acc
    else
      var before, x := AddNew(acc, xs[..|xs| - 1]), xs[|xs| - 1];
      if |x| > 0 && x !in before then before + [x] else before
  }

  /** One more element of `xs`: it is appended when it is non-empty and new. */
  lemma {:induction false} AddNewStep(acc: seq<string>, xs: seq<string>, j: nat)
    requires j < |xs|
    ensures var before := AddNew(acc, xs[..j]);
      AddNew(acc, xs[..j + 1]) == if |xs[j]| > 0 && xs[j] !in before then before + [xs[j]] else before
  {
    assert xs[..j + 1][..j] == xs[..j];
  }

  /** The stream over the group's directories: the chains of their packages, merged;
      `None` when fileToPackage throws for one of them. */
  function CollectCandidates(files: seq<AbsPath>): Option<seq<string>> {
    if files == [] then Some([])
    else match CollectCandidates(files[..|files| - 1])
      case None => None
      case Some(acc) =>
        match FileToPackage(files[|files| - 1])
        case None => None
        case Some(p) => Some(AddNew(acc, PkgToList(p)))
  }

  /** List.remove(Object): drop the first occurrence. */
  function RemoveFirst(xs: seq<string>, x: string): seq<string> {
    if xs == [] then []
    else if xs[0] == x then xs[1..]
    else [xs[0]] + RemoveFirst(xs[1..], x)
  }

  /** `if (contains(x)) { remove(x); add(0, x); }` */
  function MoveToFront(xs: seq<string>, x: string): seq<string> {
    if x in xs then [x] + RemoveFirst(xs, x) else xs
  }

  /** `replace("/", ".")` on every element. */
  function Dotted(xs: seq<string>): seq<string> {
    seq(|xs|, k requires 0 <= k < |xs| => Replace(xs[k], "/", "."))
  }

  /** Reference result of Utils.findMatchedPkgList for the directory at `choosePath`. */
  function MatchedPackages(packageGroup: map<string, seq<AbsPath>>, choosePath: AbsPath): Option<seq<string>> {
    var key := FileHeader(choosePath);
    if key !in packageGroup then Some([])
    else match FileToPackage(choosePath)
      case None => None
      case Some(pkg) =>
        match CollectCandidates(packageGroup[key])
        case None => None
        case Some(pkgList) => Some(Dotted(MoveToFront(pkgList, pkg)))
  }

  /** The stream over the group's directories: each directory's package chain is merged into
      the list in turn; a directory whose fileToPackage throws ends the whole stream. */
  method CollectPackages(fileList: seq<AbsPath>) returns (r: Option<seq<string>>)
    ensures r == CollectCandidates(fileList)
  {
    var pkgList: seq<string> := [];
    var i := 0;
    while i < |fileList|
      invariant 0 <= i <= |fileList|
      invariant CollectCandidates(fileList[..i]) == Some(pkgList)
    {
      assert fileList[..i + 1][..i] == fileList[..i];
      var s := FileToPackage(fileList[i]);
      if s.None? {
        CandidatesFailForever(fileList, i + 1);
        return None;
      }
      pkgList := MergeChain(pkgList, PkgToList(s.value));
      i := i + 1;
    }
    assert fileList[..i] == fileList;
    r := Some(pkgList);
  }

  /** Utils.findMatchedPkgList: gather the package chains of every directory grouped under the
      chosen directory's header without repeats or empty strings, move the chosen directory's
      own package to the front, and turn `/` into `.`. */
  method FindMatchedPkgList(packageGroup: map<string, seq<AbsPath>>, choosePath: AbsPath)
    returns (r: Option<seq<string>>)
    ensures r == MatchedPackages(packageGroup, choosePath)
    ensures FileHeader(choosePath) !in packageGroup ==> r == Some([])
  {
    var key := FileHeader(choosePath);
    if key !in packageGroup {
      return Some([]);
    }
    var fileList := packageGroup[key];
    var pkg := FileToPackage(choosePath);
    if pkg.None? {
      return None;
    }

    var candidates := CollectPackages(fileList);
    if candidates.None? {
      return None;
    }
    var pkgList := candidates.value;

    if pkg.value in pkgList {
      pkgList := RemoveFirst(pkgList, pkg.value);
      pkgList := [pkg.value] + pkgList;
    }
    r := Some(Dotted(pkgList));
  }

  /** The inner loop of findMatchedPkgList: append each non-empty package of the chain that
      the list does not hold yet. */
  method MergeChain(pkgList: seq<string>, chain: seq<string>) returns (r: seq<string>)
    ensures r == AddNew(pkgList, chain)
  {
    r := pkgList;
    var j := 0;
    while j < |chain|
      invariant 0 <= j <= |chain|
      invariant r == AddNew(pkgList, chain[..j])
    {
      AddNewStep(pkgList, chain, j);
      var s1 := chain[j];
      if |s1| > 0 && s1 !in r {
        r := r + [s1];
      }
      j := j + 1;
    }
    assert chain[..j] == chain;
  }

  /** Once one directory's package throws, the whole stream does. */
  lemma {:induction false} CandidatesFailForever(files: seq<AbsPath>, n: nat)
    requires n <= |files| && CollectCandidates(files[..n]).None?
    ensures CollectCandidates(files).None?
    decreases |files| - n
  {
    if n < |files| {
      assert files[..n + 1][..n] == files[..n];
      CandidatesFailForever(files, n + 1);
    } else {
      assert files[..n] == files;
    }
  }

  // ---------------------------------------------------------------------------
  // Properties of the candidate list
  // ---------------------------------------------------------------------------

  predicate Distinct(xs: seq<string>) {
    forall a, b :: 0 <= a < b < |xs| ==> xs[a] != xs[b]
  }

  /** Adding only missing, non-empty elements keeps the list free of repeats and of empty
      strings, and adds exactly the non-empty elements of `xs`. */
  lemma {:induction false} AddNewProperties(acc: seq<string>, xs: seq<string>)
    requires Distinct(acc) && "" !in acc
    ensures Distinct(AddNew(acc, xs)) && "" !in AddNew(acc, xs)
    ensures forall y :: y in AddNew(acc, xs) <==> y in acc || (y in xs && y != "")
    decreases |xs|
  {
    if xs != [] {
      var init, x := xs[..|xs| - 1], xs[|xs| - 1];
      AddNewProperties(acc, init);
      assert xs == init + [x];
    }
  }

  /** The package of the directory at `f` yields `y` in its chain. */
  predicate InChainOf(f: AbsPath, y: string) {
    FileToPackage(f).Some? && y in PkgToList(FileToPackage(f).value)
  }

  /** Some element of `xs` satisfies `P`. */
  predicate ExistsIn<T>(xs: seq<T>, P: T -> bool) {
    exists i :: 0 <= i < |xs| && P(xs[i])
  }

  /** The package of the directory yields `y` in its chain, as a predicate on directories. */
  function InChain(y: string): AbsPath -> bool {
    (f: AbsPath) => InChainOf(f, y)
  }

  /** The package of one of the directories yields `y` in its chain. */
  predicate ChainMember(files: seq<AbsPath>, y: string) {
    ExistsIn(files, InChain(y))
  }

  /** The merged chains hold every non-empty ancestor of every grouped package once, and
      nothing else. */
  lemma {:induction false} CandidatesProperties(files: seq<AbsPath>)
    requires CollectCandidates(files).Some?
    ensures var c := CollectCandidates(files).value;
      Distinct(c) && "" !in c &&
      forall y :: y in c <==> y != "" && ChainMember(files, y)
    decreases |files|
  {
    if files != [] {
      var init, last := files[..|files| - 1], files[|files| - 1];
      CandidatesProperties(init);
      var acc := CollectCandidates(init).value;
      var p := FileToPackage(last).value;
      AddNewProperties(acc, PkgToList(p));
      forall y
        ensures ChainMember(files, y) <==> ChainMember(init, y) || y in PkgToList(p)
      {
        ExistsInSnoc(files, InChain(y));
      }
    }
  }

  /** Some element of a non-empty sequence satisfies `P` exactly when one of all but the
      last does, or the last does. */
  lemma {:induction false} ExistsInSnoc<T>(xs: seq<T>, P: T -> bool)
    requires xs != []
    ensures ExistsIn(xs, P) <==> ExistsIn(xs[..|xs| - 1], P) || P(xs[|xs| - 1])
  {
    var init := xs[..|xs| - 1];
    if ExistsIn(xs, P) {
      var i :| 0 <= i < |xs| && P(xs[i]);
      if i < |init| {
        assert xs[i] == init[i];
      }
    }
    if ExistsIn(init, P) {
      var i :| 0 <= i < |init| && P(init[i]);
      assert xs[i] == init[i];
    }
  }

  lemma {:induction false} RemoveFirstProperties(xs: seq<string>, x: string)
    requires Distinct(xs) && x in xs
    ensures Distinct(RemoveFirst(xs, x))
    ensures forall y :: y in RemoveFirst(xs, x) <==> y in xs && y != x
    ensures |RemoveFirst(xs, x)| == |xs| - 1
    decreases |xs|
  {
    if xs[0] != x {
      assert forall k :: 1 <= k < |xs| ==> xs[k] != xs[0];
      assert x in xs[1..];
      RemoveFirstProperties(xs[1..], x);
      var r := RemoveFirst(xs[1..], x);
      assert RemoveFirst(xs, x) == [xs[0]] + r;
      assert xs[0] !in r;
      forall a, b | 0 <= a < b < |r| + 1
        ensures ([xs[0]] + r)[a] != ([xs[0]] + r)[b]
      {
        if a > 0 {
          assert ([xs[0]] + r)[a] == r[a - 1];
        }
      }
    } else {
      assert forall k :: 1 <= k < |xs| ==> xs[k] != x;
      assert forall y :: y in xs[1..] <==> y in xs && y != x;
    }
  }

  /** Moving the own package to the front keeps the same elements and no repeats, and puts it
      first when it is present. */
  lemma {:induction false} MoveToFrontProperties(xs: seq<string>, x: string)
    requires Distinct(xs)
    ensures Distinct(MoveToFront(xs, x)) && |MoveToFront(xs, x)| == |xs|
    ensures forall y :: y in MoveToFront(xs, x) <==> y in xs
    ensures x in xs ==> MoveToFront(xs, x)[0] == x
  {
    if x in xs {
      RemoveFirstProperties(xs, x);
    }
  }

  /** Dotting replaces every `/` of every element by `.`, position by position. */
  lemma {:induction false} DottedProperties(xs: seq<string>)
    ensures |Dotted(xs)| == |xs|
    ensures forall k :: 0 <= k < |xs| ==> Dotted(xs)[k] == SubstChar(xs[k], '/', '.')
    ensures forall k :: 0 <= k < |xs| ==> '/' !in Dotted(xs)[k]
  {
    forall k | 0 <= k < |xs|
      ensures Dotted(xs)[k] == SubstChar(xs[k], '/', '.') && '/' !in Dotted(xs)[k]
    {
      ReplaceChar(xs[k], '/', '.');
    }
  }

  /** Turning `/` into `.` cannot merge two packages whose names hold no `.` of their own. */
  lemma {:induction false} SubstSlashInjective(s: string, t: string)
    requires '.' !in s && '.' !in t && s != t
    ensures SubstChar(s, '/', '.') != SubstChar(t, '/', '.')
  {
    if |s| == |t| {
      var i :| 0 <= i < |s| && s[i] != t[i];
      assert s[i] in s && t[i] in t;
      assert SubstChar(s, '/', '.')[i] != SubstChar(t, '/', '.')[i];
    }
  }

  /** Dotting keeps a list free of repeats when no element holds a `.` of its own. */
  lemma {:induction false} DottedDistinct(xs: seq<string>)
    requires Distinct(xs)
    requires forall k :: 0 <= k < |xs| ==> '.' !in xs[k]
    ensures Distinct(Dotted(xs))
  {
    DottedProperties(xs);
    forall a, b | 0 <= a < b < |xs|
      ensures Dotted(xs)[a] != Dotted(xs)[b]
    {
      SubstSlashInjective(xs[a], xs[b]);
    }
  }

  /** Dotting a pair of packages dots each of them. */
  lemma {:induction false} DottedPair(a: string, b: string)
    ensures Dotted([a, b]) == [SubstChar(a, '/', '.'), SubstChar(b, '/', '.')]
  {
    ReplaceChar(a, '/', '.');
    ReplaceChar(b, '/', '.');
    assert "/" == ['/'] && "." == ['.'];
  }

  /** For segments without `/`, dotting `x/y` and `x.y` gives `x.y` both times. */
  lemma {:induction false} SubstSlashJoin(x: string, y: string)
    requires '/' !in x && '/' !in y
    ensures SubstChar(x + "/" + y, '/', '.') == x + "." + y
    ensures SubstChar(x + "." + y, '/', '.') == x + "." + y
  {
    var slashed, dotted := x + "/" + y, x + "." + y;
    forall k | 0 <= k < |dotted|
      ensures SubstChar(slashed, '/', '.')[k] == dotted[k] && SubstChar(dotted, '/', '.')[k] == dotted[k]
    {
      if k < |x| {
        assert slashed[k] == dotted[k] == x[k] && x[k] in x;
      } else if k > |x| {
        assert slashed[k] == dotted[k] == y[k - |x| - 1] && y[k - |x| - 1] in y;
      }
    }
  }

  /** Without that condition dotting can repeat: for segments without `/`, the distinct
      package directories `x/y` and `x.y` (such as `a/b` and `a.b`) both become `x.y`. */
  lemma {:induction false} DottedMayRepeat(x: string, y: string)
    requires '/' !in x && '/' !in y
    ensures Distinct([x + "/" + y, x + "." + y])
    ensures Dotted([x + "/" + y, x + "." + y]) == [x + "." + y, x + "." + y]
  {
    var slashed, dotted := x + "/" + y, x + "." + y;
    assert slashed[|x|] == '/' && dotted[|x|] == '.';
    DottedPair(slashed, dotted);
    SubstSlashJoin(x, y);
  }

  /** findMatchedPkgList for a chosen directory whose header is grouped: the result is the
      dotted form of a list `front` without repeats or empty strings that holds exactly the
      non-empty ancestors of the grouped packages, with the chosen directory's own package
      first when it is among them; no element contains `/`. The dotted result itself is free
      of repeats when no package directory name holds a `.` (DottedMayRepeat shows why that
      condition is needed). */
  lemma {:induction false} MatchedPackagesProperties(packageGroup: map<string, seq<AbsPath>>, choosePath: AbsPath)
    requires FileHeader(choosePath) in packageGroup
    requires MatchedPackages(packageGroup, choosePath).Some?
    ensures var files := packageGroup[FileHeader(choosePath)];
      var pkg := FileToPackage(choosePath).value;
      var front := MoveToFront(CollectCandidates(files).value, pkg);
      MatchedPackages(packageGroup, choosePath).value == Dotted(front) &&
      Distinct(front) && "" !in front &&
      (forall y :: y in front <==> y != "" && ChainMember(files, y)) &&
      (pkg in front ==> front[0] == pkg) &&
      (forall k :: 0 <= k < |front| ==> '/' !in Dotted(front)[k]) &&
      ((forall y :: ChainMember(files, y) ==> '.' !in y) ==> Distinct(Dotted(front)))
  {
    var files := packageGroup[FileHeader(choosePath)];
    var pkg := FileToPackage(choosePath).value;
    CandidatesProperties(files);
    var c := CollectCandidates(files).value;
    MoveToFrontProperties(c, pkg);
    var front := MoveToFront(c, pkg);
    DottedProperties(front);
    if forall y :: ChainMember(files, y) ==> '.' !in y {
      forall k | 0 <= k < |front|
        ensures '.' !in front[k]
      {
        assert front[k] in front;
      }
      DottedDistinct(front);
    }
  }

  /** Choosing a source root directory itself whose header is grouped: fileToPackage throws. */
  lemma {:induction false} ChoosingSourceRootFails(packageGroup: map<string, seq<AbsPath>>, choosePath: AbsPath)
    requires FileHeader(choosePath) in packageGroup
    requires Contains(choosePath, JavaRoot) && !Contains(choosePath, JavaRoot + "/")
    ensures MatchedPackages(packageGroup, choosePath).None?
  {
    PackageOfSourceRootFails(choosePath);
  }
}
