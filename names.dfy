/**
 * Name translation of Utils: a class name becomes a snake_case layout name
 * (transClassNameToLayoutName) and a layout name becomes the PascalCase name of its generated
 * data-binding class (layoutToBindings).
 */
module Names {
  import opened Wrappers
  import opened JavaStrings

  /** Utils.isUpper: an ASCII capital. */
  predicate IsUpper(c: char) {
    'A' <= c <= 'Z'
  }

  // ---------------------------------------------------------------------------
  // Class name to layout name
  // ---------------------------------------------------------------------------

  /** What s[i] contributes to the layout name, read left to right: its lower-case form,
      preceded by `_` when it is a capital past the first position. */
  function Piece(s: string, i: nat): string
    requires i < |s|
  {
    if i > 0 && IsUpper(s[i]) then ['_', LowerChar(s[i])] else [LowerChar(s[i])]
  }

  /** The layout name of the first `j` characters of `s`. */
  function LayoutPrefix(s: string, j: nat): string
    requires j <= |s|
  {
    if j == 0 then [] else LayoutPrefix(s, j - 1) + Piece(s, j - 1)
  }

  /** Reference definition of the layout name of a class name: a single left-to-right scan. */
  function LayoutNameOf(s: string): string {
    LayoutPrefix(s, |s|)
  }

  /** Number of capitals at indices 1 .. j-1 of `s`. */
  function UpperCount(s: string, j: nat): nat
    requires j <= |s|
  {
    if j <= 1 then 0 else UpperCount(s, j - 1) + (if IsUpper(s[j - 1]) then 1 else 0)
  }

  /** Strictly increasing indices, each holding a capital of `s`, and every capital listed. */
  predicate CapitalIndices(s: string, u: seq<nat>) {
    (forall t :: 0 <= t < |u| ==> u[t] < |s| && IsUpper(s[u[t]])) &&
    (forall t, t' :: 0 <= t < t' < |u| ==> u[t] < u[t']) &&
    (forall j :: 0 <= j < |s| && IsUpper(s[j]) ==> j in u)
  }

  /** The first loop of Utils.transClassNameToLayoutName: collect the indices of the capitals
      in increasing order. */
  method CollectUpperIndices(original: string) returns (upperIndexList: seq<nat>)
    ensures CapitalIndices(original, upperIndexList)
  {
    upperIndexList := [];
    var i := 0;
    while i < |original|
      invariant 0 <= i <= |original|
      invariant forall t :: 0 <= t < |upperIndexList| ==>
        upperIndexList[t] < i && IsUpper(original[upperIndexList[t]])
      invariant forall t, u :: 0 <= t < u < |upperIndexList| ==> upperIndexList[t] < upperIndexList[u]
      invariant forall j :: 0 <= j < i && IsUpper(original[j]) ==> j in upperIndexList
    {
      if IsUpper(original[i]) {
        upperIndexList := upperIndexList + [i];
      }
      i := i + 1;
    }
  }

  /** Utils.transClassNameToLayoutName: record the indices of the capitals, drop index 0,
      lower-case the whole name, then insert `_` at each recorded index shifted by the number
      of underscores inserted so far. */
  method TransClassNameToLayoutName(original: string) returns (r: string)
    ensures r == LayoutNameOf(original)
  {
    var upperIndexList := CollectUpperIndices(original);
    ghost var collected := upperIndexList;
    // List.remove(0) removes the element at position 0, which holds the index 0 when present.
    if 0 in upperIndexList {
      upperIndexList := upperIndexList[1..];
    }
    DropIndexZero(original, collected);
    r := InsertUnderscores(original, upperIndexList);
  }

  /** The second loop of Utils.transClassNameToLayoutName: insert `_` into the lower-cased
      name at each insertion point, shifted by the underscores already inserted. */
  method InsertUnderscores(original: string, upperIndexList: seq<nat>) returns (r: string)
    requires InsertionPoints(original, upperIndexList)
    ensures r == LayoutNameOf(original)
  {
    var sb := ToLower(original);
    var offset := 0;
    var k := 0;
    ghost var done := 0;
    assert sb == Stage(original, 0);
    while k < |upperIndexList|
      invariant 0 <= k <= |upperIndexList| && offset == k
      invariant done <= |original|
      invariant k == 0 ==> done == 0
      invariant k > 0 ==> done == upperIndexList[k - 1] + 1
      invariant sb == Stage(original, done) && |LayoutPrefix(original, done)| == done + k
    {
      var next := upperIndexList[k];
      GapHasNoCapitals(original, upperIndexList, k, done);
      var index := next + offset;
      InsertUnderscoreStep(original, done, next, k, sb);
      sb := Insert(sb, index, "_");
      offset := offset + 1;
      done := next + 1;
      k := k + 1;
    }
    GapHasNoCapitals(original, upperIndexList, k, done);
    StageComplete(original, done);
    r := sb;
  }

  /** The text of the second loop once the capitals before `done` have their `_`: the layout
      name of the first `done` characters, then the rest lower-cased. */
  function Stage(s: string, done: nat): string
    requires done <= |s|
  {
    LayoutPrefix(s, done) + ToLower(s)[done..]
  }

  /** Past the last capital the text of the second loop is the layout name. */
  lemma {:induction false} StageComplete(s: string, done: nat)
    requires done <= |s|
    requires forall j :: done <= j < |s| && 1 <= j ==> !IsUpper(s[j])
    ensures Stage(s, done) == LayoutNameOf(s)
  {
    LayoutPrefixLower(s, done, |s|);
  }

  /** The recorded indices once index 0 is dropped: increasing, each a capital past index 0,
      and every capital past index 0 listed. */
  predicate InsertionPoints(s: string, u: seq<nat>) {
    (forall t :: 0 <= t < |u| ==> 1 <= u[t] < |s| && IsUpper(s[u[t]])) &&
    (forall t, t' :: 0 <= t < t' < |u| ==> u[t] < u[t']) &&
    (forall j :: 1 <= j < |s| && IsUpper(s[j]) ==> j in u)
  }

  lemma {:induction false} DropIndexZero(s: string, u: seq<nat>)
    requires CapitalIndices(s, u)
    ensures InsertionPoints(s, if 0 in u then u[1..] else u)
  {
    if 0 in u {
      var t0 :| 0 <= t0 < |u| && u[t0] == 0;
      assert u[0] <= u[t0];
      assert forall t :: 1 <= t < |u| ==> u[0] < u[t];
      forall j | 1 <= j < |s| && IsUpper(s[j])
        ensures j in u[1..]
      {
        var t :| 0 <= t < |u| && u[t] == j;
        assert u[1..][t - 1] == j;
      }
    }
  }

  /** No capital lies between two consecutive insertion points (or after the last one). */
  lemma {:induction false} GapHasNoCapitals(s: string, u: seq<nat>, k: nat, lo: nat)
    requires InsertionPoints(s, u) && k <= |u|
    requires k == 0 ==> lo == 0
    requires k > 0 ==> lo == u[k - 1] + 1
    ensures k < |u| ==> lo <= u[k] < |s| && 1 <= u[k] && IsUpper(s[u[k]])
    ensures forall j :: lo <= j < (if k < |u| then u[k] else |s|) && 1 <= j ==> !IsUpper(s[j])
  {
    forall j | lo <= j < (if k < |u| then u[k] else |s|) && 1 <= j
      ensures !IsUpper(s[j])
    {
      NotInSortedGap(u, k, lo, j);
    }
  }

  /** One insertion of the second loop: the lower-cased text from `done` on is consumed up to
      and including the capital at `next`, which gets its `_`. */
  lemma {:induction false} InsertUnderscoreStep(s: string, done: nat, next: nat, k: nat, sb: string)
    requires done <= next < |s| && 1 <= next && IsUpper(s[next])
    requires forall j :: done <= j < next && 1 <= j ==> !IsUpper(s[j])
    requires sb == Stage(s, done) && |LayoutPrefix(s, done)| == done + k
    ensures next + k <= |sb|
    ensures Insert(sb, next + k, "_") == Stage(s, next + 1)
    ensures |LayoutPrefix(s, next + 1)| == next + 1 + k + 1
  {
    StageAtCapital(s, done, next);
    var pre, c, rest := LayoutPrefix(s, next), LowerChar(s[next]), ToLower(s)[next + 1..];
    InsertBefore(pre, c, rest);
    LayoutPrefixLength(s, next);
    LayoutPrefixLength(s, done);
    UpperCountGap(s, done, next);
  }

  /** Up to a capital at `next`, with none in between, the text of the second loop is the
      layout name so far, then that capital lower-cased, then the rest lower-cased. */
  lemma {:induction false} StageAtCapital(s: string, done: nat, next: nat)
    requires done <= next < |s| && 1 <= next && IsUpper(s[next])
    requires forall j :: done <= j < next && 1 <= j ==> !IsUpper(s[j])
    ensures Stage(s, done) == LayoutPrefix(s, next) + ([LowerChar(s[next])] + ToLower(s)[next + 1..])
    ensures Stage(s, next + 1) == (LayoutPrefix(s, next) + ['_', LowerChar(s[next])]) + ToLower(s)[next + 1..]
  {
    LayoutPrefixLower(s, done, next);
    var lower := ToLower(s);
    DropSplit(lower, done, next);
    DropCons(lower, next);
  }

  /** Inserting `_` where a text is cut before `c`. */
  lemma {:induction false} InsertBefore(pre: string, c: char, rest: string)
    ensures var sb := pre + ([c] + rest);
      sb[..|pre|] + "_" + sb[|pre|..] == (pre + ['_', c]) + rest
  {
    AppendHalves(pre, [c] + rest);
  }

  /** No capital between `done` and `next` adds nothing to the count. */
  lemma {:induction false} UpperCountGap(s: string, done: nat, next: nat)
    requires done <= next < |s|
    requires forall j :: done <= j < next && 1 <= j ==> !IsUpper(s[j])
    ensures UpperCount(s, next) == UpperCount(s, done)
    decreases next
  {
    if done < next {
      UpperCountGap(s, done, next - 1);
    }
  }

  /** In a strictly increasing `u`, nothing lies between u[k-1] (below `lo`) and u[k]. */
  lemma {:induction false} NotInSortedGap(u: seq<nat>, k: nat, lo: nat, j: nat)
    requires k <= |u|
    requires forall t, t' :: 0 <= t < t' < |u| ==> u[t] < u[t']
    requires k > 0 ==> u[k - 1] < lo
    requires lo <= j && (k < |u| ==> j < u[k])
    ensures j !in u
  {
    forall t | 0 <= t < |u|
      ensures u[t] != j
    {
      if t + 1 < k {
        assert u[t] < u[k - 1];
      } else if k <= t && t != k {
        assert u[k] < u[t];
      }
    }
  }

  /** Between `a` and `b` without capitals (index 0 aside) the layout name is the lower-cased
      input. */
  lemma {:induction false} LayoutPrefixLower(s: string, a: nat, b: nat)
    requires a <= b <= |s|
    requires forall j :: a <= j < b && 1 <= j ==> !IsUpper(s[j])
    ensures LayoutPrefix(s, b) == LayoutPrefix(s, a) + ToLower(s)[a..b]
    decreases b
  {
    if a < b {
      LayoutPrefixLower(s, a, b - 1);
      assert ToLower(s)[a..b] == ToLower(s)[a..b - 1] + [LowerChar(s[b - 1])];
    }
  }

  /** A shorter prefix's layout name is a prefix of a longer one's. */
  lemma {:induction false} LayoutPrefixExtends(s: string, a: nat, b: nat)
    requires a <= b <= |s|
    ensures |LayoutPrefix(s, a)| <= |LayoutPrefix(s, b)|
    ensures LayoutPrefix(s, b)[..|LayoutPrefix(s, a)|] == LayoutPrefix(s, a)
    decreases b
  {
    if a < b {
      LayoutPrefixExtends(s, a, b - 1);
      var pa, pb1 := LayoutPrefix(s, a), LayoutPrefix(s, b - 1);
      assert (pb1 + Piece(s, b - 1))[..|pa|] == pb1[..|pa|];
    }
  }

  /** Length of the layout name of a prefix: one character per input character and one `_`
      per capital past index 0. */
  lemma {:induction false} LayoutPrefixLength(s: string, j: nat)
    requires j <= |s|
    ensures |LayoutPrefix(s, j)| == j + UpperCount(s, j)
    decreases j
  {
    if j > 0 {
      LayoutPrefixLength(s, j - 1);
    }
  }

  /** The layout name is as long as the class name plus its capitals past index 0. */
  lemma {:induction false} LayoutNameLength(s: string)
    ensures |LayoutNameOf(s)| == |s| + UpperCount(s, |s|)
  {
    LayoutPrefixLength(s, |s|);
  }

  /** The layout name contains no ASCII capital. */
  lemma {:induction false} LayoutNameHasNoCapitals(s: string, j: nat)
    requires j <= |s|
    ensures forall k :: 0 <= k < |LayoutPrefix(s, j)| ==> !IsUpper(LayoutPrefix(s, j)[k])
    decreases j
  {
    if j > 0 {
      LayoutNameHasNoCapitals(s, j - 1);
    }
  }

  /** Where s[i] lands: its lower-case form sits at index i plus the number of capitals in
      s[1..i], and a capital past index 0 has an inserted `_` right before it; the first
      character never gets one. */
  lemma {:induction false} LayoutNamePlacement(s: string, i: nat)
    requires i < |s|
    ensures var r, p := LayoutNameOf(s), i + UpperCount(s, i + 1);
      p < |r| && r[p] == LowerChar(s[i]) &&
      (i == 0 ==> p == 0) &&
      (i > 0 && IsUpper(s[i]) ==> r[p - 1] == '_')
  {
    LayoutPrefixExtends(s, i + 1, |s|);
    LayoutPrefixLength(s, i + 1);
    LayoutPrefixLength(s, i);
    var pre := LayoutPrefix(s, i + 1);
    assert pre == LayoutPrefix(s, i) + Piece(s, i);
    assert LayoutNameOf(s)[..|pre|] == pre;
    assert LayoutNameOf(s)[|pre| - 1] == pre[|pre| - 1];
    if i > 0 && IsUpper(s[i]) {
      assert LayoutNameOf(s)[|pre| - 2] == pre[|pre| - 2];
    }
  }

  // ---------------------------------------------------------------------------
  // Layout name to binding class name
  // ---------------------------------------------------------------------------

  /** Utils.upperCaseFirst; `None` for the empty string, whose arr[0] is out of bounds. */
  function UpperCaseFirst(v: string): Option<string> {
    if v == "" then None else Some([UpperChar(v[0])] + v[1..])
  }

  /** The forEach that appends each segment, first character upper-cased, to the one-cell
      accumulator; an empty segment ends it with an exception. */
  function JoinCapitalized(segments: seq<string>): Option<string> {
    if segments == [] then Some("")
    else match UpperCaseFirst(segments[0])
      case None => None
      case Some(head) =>
        match JoinCapitalized(segments[1..])
        case None => None
        case Some(tail) => Some(head + tail)
  }

  /** Utils.layoutToBindings: split on `_`, upper-case the first character of each segment,
      concatenate and append `Binding`. */
  function LayoutToBindings(layoutName: string): Option<string> {
    match JoinCapitalized(Split(layoutName, "_"))
    case None => None
    case Some(name) => Some(name + "Binding")
  }

  /** Number of `_` in `t`. */
  function UnderscoreCount(t: string): nat {
    if t == [] then 0 else (if t[0] == '_' then 1 else 0) + UnderscoreCount(t[1..])
  }

  predicate AllUnderscores(u: string) {
    forall k :: 0 <= k < |u| ==> u[k] == '_'
  }

  /** Reference definition of the binding name's stem, one character at a time: every `_` is
      dropped and the character that opens a segment is upper-cased. */
  function CapitalizeFrom(t: string, atStart: bool): (r: string)
    ensures '_' !in r
    ensures |r| == |t| - UnderscoreCount(t)
  {
    if t == [] then []
    else if t[0] == '_' then CapitalizeFrom(t[1..], true)
    else [if atStart then UpperChar(t[0]) else t[0]] + CapitalizeFrom(t[1..], false)
  }

  /** An empty segment is followed by text: an `_` that opens the name or follows another `_`,
      with a non-`_` character somewhere after it. */
  predicate EmptySegmentBeforeText(t: string) {
    exists p, q | 0 <= p < q < |t| :: EmptySegmentAt(t, p, q)
  }

  /** The segment ending at the `_` at `p` is empty, and `q` holds text after it. */
  predicate EmptySegmentAt(t: string, p: int, q: int) {
    0 <= p < q < |t| && t[p] == '_' && (p == 0 || t[p - 1] == '_') && t[q] != '_'
  }

  /** split("_") keeps an empty segment: the name is empty (split returns [""]), or an empty
      segment comes before text (empty segments at the end are dropped). */
  predicate HasEmptySegment(t: string) {
    t == "" || EmptySegmentBeforeText(t)
  }

  /** Whether a segment opens after `x` has been read from state `atStart`. */
  function AfterState(x: string, atStart: bool): bool {
    if x == [] then atStart else x[|x| - 1] == '_'
  }

  lemma {:induction false} CapitalizeAppend(x: string, y: string, atStart: bool)
    ensures CapitalizeFrom(x + y, atStart) == CapitalizeFrom(x, atStart) + CapitalizeFrom(y, AfterState(x, atStart))
    decreases |x|
  {
    if x != [] {
      var next := x[0] == '_';
      assert (x + y)[0] == x[0];
      assert (x + y)[1..] == x[1..] + y;
      CapitalizeAppend(x[1..], y, next);
      if x[1..] != [] {
        assert x[1..][|x[1..]| - 1] == x[|x| - 1];
      }
      assert AfterState(x[1..], next) == AfterState(x, atStart);
      if next {
        assert CapitalizeFrom(x + y, atStart) == CapitalizeFrom(x[1..] + y, true);
        assert CapitalizeFrom(x, atStart) == CapitalizeFrom(x[1..], true);
      } else {
        var c := [if atStart then UpperChar(x[0]) else x[0]];
        assert CapitalizeFrom(x + y, atStart) == c + CapitalizeFrom(x[1..] + y, false);
        AppendAssoc(c, CapitalizeFrom(x[1..], false), CapitalizeFrom(y, AfterState(x, atStart)));
      }
    } else {
      assert x + y == y;
    }
  }

  lemma {:induction false} CapitalizeWithoutUnderscore(t: string)
    requires '_' !in t
    ensures CapitalizeFrom(t, false) == t
    decreases |t|
  {
    if t != [] {
      CapitalizeWithoutUnderscore(t[1..]);
    }
  }

  lemma {:induction false} CapitalizeUnderscores(u: string, atStart: bool)
    requires AllUnderscores(u)
    ensures CapitalizeFrom(u, atStart) == ""
    decreases |u|
  {
    if u != [] {
      CapitalizeUnderscores(u[1..], true);
    }
  }

  /** After dropping trailing empties nothing is left exactly when the name is all `_`. */
  lemma {:induction false} SplitLeavesNothing(u: string)
    ensures DropTrailingEmpty(SplitAll(u, "_")) == [] <==> AllUnderscores(u)
    decreases |u|
  {
    IndexOfChar(u, '_');
    match IndexOf(u, "_")
    case None =>
      assert SplitAll(u, "_") == [u];
      if u != [] {
        assert u[0] != '_';
      }
    case Some(i) =>
      var x, w := u[..i], u[i + 1..];
      assert u == x + "_" + w;
      assert SplitAll(u, "_") == [x] + SplitAll(w, "_");
      DropTrailingEmptyCons(x, SplitAll(w, "_"));
      SplitLeavesNothing(w);
      assert forall k :: 0 <= k < |w| ==> u[i + 1 + k] == w[k];
      if x != [] {
        assert u[0] == x[0] && x[0] != '_';
      }
  }

  /** Moving past the first `_`: the empty-segment condition of `x + "_" + u`. */
  lemma {:induction false} EmptySegmentShift(x: string, u: string)
    requires '_' !in x
    ensures EmptySegmentBeforeText(x + "_" + u) <==>
      (x == "" && !AllUnderscores(u)) || EmptySegmentBeforeText(u)
  {
    if EmptySegmentBeforeText(x + "_" + u) {
      EmptySegmentFromWhole(x, u);
    }
    if x == "" && !AllUnderscores(u) {
      EmptySegmentAtStart(u);
      assert x + "_" + u == "_" + u;
    }
    if EmptySegmentBeforeText(u) {
      EmptySegmentInRest(x, u);
    }
  }

  lemma {:induction false} EmptySegmentFromWhole(x: string, u: string)
    requires '_' !in x && EmptySegmentBeforeText(x + "_" + u)
    ensures (x == "" && !AllUnderscores(u)) || EmptySegmentBeforeText(u)
  {
    var t := x + "_" + u;
    var m := |x| + 1;
    var p, q :| 0 <= p < q < |t| && EmptySegmentAt(t, p, q);
    forall k | 0 <= k < |x|
      ensures t[k] != '_'
    {
      assert t[k] == x[k] && x[k] in x;
    }
    assert t[p] == '_';
    assert p >= |x|;
    assert t[m + (q - m)] == u[q - m];
    if p == |x| {
      assert x == "";
      assert u[q - m] != '_';
    } else {
      assert t[m + (p - m)] == u[p - m];
      if p - m > 0 {
        assert t[m + (p - m - 1)] == u[p - m - 1];
      }
      assert EmptySegmentAt(u, p - m, q - m);
    }
  }

  lemma {:induction false} EmptySegmentAtStart(u: string)
    requires !AllUnderscores(u)
    ensures EmptySegmentBeforeText("_" + u)
  {
    var k :| 0 <= k < |u| && u[k] != '_';
    assert ("_" + u)[k + 1] == u[k];
    assert EmptySegmentAt("_" + u, 0, k + 1);
  }

  lemma {:induction false} EmptySegmentInRest(x: string, u: string)
    requires EmptySegmentBeforeText(u)
    ensures EmptySegmentBeforeText(x + "_" + u)
  {
    var t := x + "_" + u;
    var m := |x| + 1;
    var p, q :| 0 <= p < q < |u| && EmptySegmentAt(u, p, q);
    assert t[m + p] == u[p] && t[m + q] == u[q];
    if p > 0 {
      assert t[m + (p - 1)] == u[p - 1];
    } else {
      assert t[m - 1] == '_';
    }
    assert EmptySegmentAt(t, p + m, q + m);
  }

  /** A single segment without `_`: upperCaseFirst agrees with the reference scan. */
  lemma {:induction false} CapitalizeWord(x: string)
    requires '_' !in x && x != []
    ensures UpperCaseFirst(x) == Some(CapitalizeFrom(x, true))
    ensures JoinCapitalized([x]) == Some(CapitalizeFrom(x, true))
    ensures !EmptySegmentBeforeText(x)
  {
    CapitalizeWithoutUnderscore(x[1..]);
    assert x[0] != '_';
    var head := [UpperChar(x[0])] + x[1..];
    assert [x][1..] == [];
    assert head + "" == head;
  }

  /** One step of the join: the segment before the first `_`, then the rest. */
  lemma {:induction false} JoinKeptStep(x: string, u: string)
    requires '_' !in x
    requires JoinCapitalized(DropTrailingEmpty(SplitAll(u, "_"))) ==
      if EmptySegmentBeforeText(u) then None else Some(CapitalizeFrom(u, true))
    ensures JoinCapitalized(DropTrailingEmpty([x] + SplitAll(u, "_"))) ==
      if EmptySegmentBeforeText(x + "_" + u) then None else Some(CapitalizeFrom(x + "_" + u, true))
  {
    var rest := DropTrailingEmpty(SplitAll(u, "_"));
    DropTrailingEmptyCons(x, SplitAll(u, "_"));
    SplitLeavesNothing(u);
    EmptySegmentShift(x, u);
    assert x + "_" + u == x + ("_" + u);
    CapitalizeAppend(x, "_" + u, true);
    assert ("_" + u)[1..] == u;
    assert CapitalizeFrom(x + "_" + u, true) == CapitalizeFrom(x, true) + CapitalizeFrom(u, true);
    if rest == [] {
      CapitalizeUnderscores(u, true);
      if x != [] {
        CapitalizeWord(x);
        assert CapitalizeFrom(x, true) + "" == CapitalizeFrom(x, true);
      }
    } else {
      assert ([x] + rest)[0] == x && ([x] + rest)[1..] == rest;
      if x != [] {
        CapitalizeWord(x);
      }
    }
  }

  /** Joining the segments that split keeps agrees with the reference scan, unless an empty
      segment precedes text. */
  lemma {:induction false} JoinKeptSegments(t: string)
    ensures JoinCapitalized(DropTrailingEmpty(SplitAll(t, "_"))) ==
      if EmptySegmentBeforeText(t) then None else Some(CapitalizeFrom(t, true))
    decreases |t|
  {
    IndexOfChar(t, '_');
    match IndexOf(t, "_")
    case None =>
      assert SplitAll(t, "_") == [t];
      if t != [] {
        CapitalizeWord(t);
      }
    case Some(i) =>
      var x, u := t[..i], t[i + 1..];
      assert t == x + "_" + u;
      assert SplitAll(t, "_") == [x] + SplitAll(u, "_");
      JoinKeptSegments(u);
      JoinKeptStep(x, u);
  }

  /** layoutToBindings succeeds exactly when split("_") keeps no empty segment, and then it
      yields the reference scan followed by `Binding`. */
  lemma {:induction false} LayoutToBindingsDefined(t: string)
    ensures LayoutToBindings(t).Some? <==> !HasEmptySegment(t)
    ensures LayoutToBindings(t).Some? ==>
      LayoutToBindings(t).value == CapitalizeFrom(t, true) + "Binding"
  {
    IndexOfChar(t, '_');
    if !Contains(t, "_") {
      assert Split(t, "_") == [t];
      if t != [] {
        CapitalizeWord(t);
      }
    } else {
      JoinKeptSegments(t);
    }
  }

  /** A binding name has no `_`, one character per non-`_` character of the layout name plus
      the seven of `Binding`, and ends in `Binding`. */
  lemma {:induction false} BindingNameShape(t: string)
    requires LayoutToBindings(t).Some?
    ensures var b := LayoutToBindings(t).value;
      '_' !in b && |b| == |t| - UnderscoreCount(t) + 7 && EndsWith(b, "Binding")
  {
    LayoutToBindingsDefined(t);
    var stem := CapitalizeFrom(t, true);
    assert (stem + "Binding")[|stem|..] == "Binding";
  }

  /** Layout names that the dialogs accept but layoutToBindings rejects: a leading `_`. */
  lemma {:induction false} LeadingUnderscoreFails(rest: string)
    requires |rest| > 0 && rest[0] != '_'
    ensures LayoutToBindings("_" + rest).None?
  {
    var t := "_" + rest;
    assert t[0] == '_' && t[1] != '_';
    LayoutToBindingsDefined(t);
  }

  // ---------------------------------------------------------------------------
  // Round trip
  // ---------------------------------------------------------------------------

  lemma {:induction false} UpperOfLower(c: char)
    ensures UpperChar(LowerChar(c)) == UpperChar(c)
    ensures IsUpper(c) ==> UpperChar(LowerChar(c)) == c
    ensures !IsUpper(c) ==> LowerChar(c) == c
    ensures LowerChar(c) == '_' <==> c == '_'
  {
  }

  /** No `__` anywhere. */
  predicate NoDoubleUnderscore(s: string) {
    forall i :: 0 <= i < |s| - 1 ==> !(s[i] == '_' && s[i + 1] == '_')
  }

  /** Non-empty, neither starting nor ending with `_`, and without `__`: split("_") keeps no
      empty segment of such a name. */
  predicate Separated(r: string) {
    r != [] && r[0] != '_' && r[|r| - 1] != '_' && NoDoubleUnderscore(r)
  }

  /** Appending one character, or `_` and one character, keeps a name separated. */
  lemma {:induction false} SeparatedSnoc(r: string, p: string)
    requires Separated(r)
    requires (|p| == 1 && p[0] != '_') || (|p| == 2 && p[0] == '_' && p[1] != '_')
    ensures Separated(r + p)
  {
    var t := r + p;
    assert t[0] == r[0] && t[|t| - 1] == p[|p| - 1];
    forall k | 0 <= k < |t| - 1
      ensures !(t[k] == '_' && t[k + 1] == '_')
    {
      if k < |r| - 1 {
        assert t[k] == r[k] && t[k + 1] == r[k + 1];
      } else if k == |r| - 1 {
        assert t[k] == r[|r| - 1];
      } else {
        assert t[k + 1] == p[1];
      }
    }
  }

  /** Read after text that does not end in `_`, a piece of the layout name gives back the
      class name character it came from. */
  lemma {:induction false} PieceCapitalized(s: string, i: nat)
    requires 1 <= i < |s| && s[i] != '_'
    ensures CapitalizeFrom(Piece(s, i), false) == [s[i]]
  {
    UpperOfLower(s[i]);
    if IsUpper(s[i]) {
      assert CapitalizeFrom(['_', LowerChar(s[i])], false) == CapitalizeFrom([LowerChar(s[i])], true);
    }
  }

  /** The layout name of a prefix of an underscore-free class name is separated. */
  lemma {:induction false} RoundTripShape(s: string, j: nat)
    requires 1 <= j <= |s| && '_' !in s
    ensures Separated(LayoutPrefix(s, j))
    decreases j
  {
    UpperOfLower(s[j - 1]);
    if j == 1 {
      assert LayoutPrefix(s, 1) == [LowerChar(s[0])];
      assert s[0] != '_';
    } else {
      RoundTripShape(s, j - 1);
      assert s[j - 1] != '_';
      SeparatedSnoc(LayoutPrefix(s, j - 1), Piece(s, j - 1));
    }
  }

  /** Reading the layout name of a prefix of an underscore-free class name back gives the
      prefix with its first character upper-cased. */
  lemma {:induction false} RoundTripPrefix(s: string, j: nat)
    requires 1 <= j <= |s| && '_' !in s
    ensures CapitalizeFrom(LayoutPrefix(s, j), true) == [UpperChar(s[0])] + s[1..j]
    decreases j
  {
    if j == 1 {
      UpperOfLower(s[0]);
      assert LayoutPrefix(s, 1) == [LowerChar(s[0])];
      assert s[0] != '_';
    } else {
      RoundTripPrefix(s, j - 1);
      RoundTripShape(s, j - 1);
      var r := LayoutPrefix(s, j - 1);
      assert s[j - 1] != '_';
      assert LayoutPrefix(s, j) == r + Piece(s, j - 1);
      CapitalizeAppend(r, Piece(s, j - 1), true);
      assert AfterState(r, true) == false;
      PieceCapitalized(s, j - 1);
      SliceSnoc(s, 1, j);
    }
  }

  /** Class name to layout name and back: for a class name without `_`, the binding name is
      the class name with its first character upper-cased, followed by `Binding`; casing is
      normalised, nothing else is lost. */
  lemma {:induction false} ClassNameRoundTrip(s: string)
    requires s != "" && '_' !in s
    ensures LayoutToBindings(LayoutNameOf(s)) == Some([UpperChar(s[0])] + s[1..] + "Binding")
  {
    RoundTripPrefix(s, |s|);
    RoundTripShape(s, |s|);
    var r := LayoutNameOf(s);
    forall p, q | 0 <= p < q < |r|
      ensures !EmptySegmentAt(r, p, q)
    {
      if p > 0 {
        assert !(r[p - 1] == '_' && r[p - 1 + 1] == '_');
      }
    }
    LayoutToBindingsDefined(r);
    assert s[1..|s|] == s[1..];
  }
}
