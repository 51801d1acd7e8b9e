/**
 * The parts of java.lang.String (and of jsoup's StringUtil.isBlank) that the plugin uses,
 * for literal (non-regex) patterns and ASCII case mapping only.
 */
module JavaStrings {
  import opened Wrappers

  /** `p` occurs in `s` starting at index `i`. */
  predicate OccursAt(s: string, p: string, i: nat) {
    i + |p| <= |s| && s[i..i + |p|] == p
  }

  /** String.indexOf(p, k): the first index at or after `k` where `p` occurs. */
  function IndexFrom(s: string, p: string, k: nat): (r: Option<nat>)
    decreases |s| - k
    ensures r.Some? ==> k <= r.value && OccursAt(s, p, r.value)
    ensures forall j {:trigger OccursAt(s, p, j)} ::
      k <= j && (r.None? || j < r.value) ==> !OccursAt(s, p, j)
  {
    if k + |p| > |s| then None
    else if OccursAt(s, p, k) then Some(k)
    else IndexFrom(s, p, k + 1)
  }

  /** String.indexOf(p). */
  function IndexOf(s: string, p: string): Option<nat> {
    IndexFrom(s, p, 0)
  }

  /** String.contains(p). */
  predicate Contains(s: string, p: string) {
    IndexOf(s, p).Some?
  }

  predicate StartsWith(s: string, p: string) {
    |p| <= |s| && s[..|p|] == p
  }

  predicate EndsWith(s: string, p: string) {
    |p| <= |s| && s[|s| - |p|..] == p
  }

  /** The first occurrence is the only occurrence with none before it. */
  lemma {:induction false} IndexOfIs(s: string, p: string, i: nat)
    requires OccursAt(s, p, i)
    requires forall j: nat :: j < i ==> !OccursAt(s, p, j)
    ensures IndexOf(s, p) == Some(i)
  {
  }

  /** An occurrence of `p + q` is an occurrence of `p`. */
  lemma {:induction false} OccursAtPrefix(s: string, p: string, q: string, i: nat)
    requires OccursAt(s, p + q, i)
    ensures OccursAt(s, p, i)
  {
    assert s[i..i + |p|] == (p + q)[..|p|];
  }

  /** For a one-character pattern, `contains` and `indexOf` are about that character. */
  lemma {:induction false} IndexOfChar(s: string, c: char)
    ensures IndexOf(s, [c]).None? <==> c !in s
    ensures IndexOf(s, [c]).Some? ==>
      var i := IndexOf(s, [c]).value; i < |s| && s[i] == c && c !in s[..i]
  {
    forall j | 0 <= j < |s|
      ensures OccursAt(s, [c], j) <==> s[j] == c
    {
      assert s[j..j + 1] == [s[j]];
    }
    if c in s {
      var j :| 0 <= j < |s| && s[j] == c;
      assert OccursAt(s, [c], j);
    }
    if IndexOf(s, [c]).Some? {
      var i := IndexOf(s, [c]).value;
      forall k | 0 <= k < i ensures s[..i][k] != c {
        assert !OccursAt(s, [c], k);
      }
    }
  }

  // ---------------------------------------------------------------------------
  // String.replace(CharSequence, CharSequence)
  // ---------------------------------------------------------------------------

  /** Replaces every occurrence of `target`, scanning left to right without overlap. */
  function Replace(s: string, target: string, replacement: string): string
    requires |target| > 0
    decreases |s|
  {
    match IndexOf(s, target)
    case None => s
    case Some(i) => s[..i] + replacement + Replace(s[i + |target|..], target, replacement)
  }

  /** Replacing introduces no character beyond those of the text and the replacement. */
  lemma {:induction false} ReplaceChars(s: string, target: string, replacement: string)
    requires |target| > 0
    ensures forall c :: c in Replace(s, target, replacement) ==> c in s || c in replacement
    decreases |s|
  {
    if IndexOf(s, target).Some? {
      var i := IndexOf(s, target).value;
      ReplaceChars(s[i + |target|..], target, replacement);
    }
  }

  /** When `b` starts with a character that `t` lacks and `t` starts with a character that `b`
      lacks, no occurrence of `t` in `a + b` touches `b`. */
  lemma {:induction false} OccurrencesStayLeft(a: string, b: string, t: string, j: nat)
    requires |t| > 0 && |b| > 0 && b[0] !in t && t[0] !in b
    ensures OccursAt(a + b, t, j) <==> OccursAt(a, t, j)
  {
    if OccursAt(a + b, t, j) {
      if j + |t| > |a| {
        OccurrenceTouchingRight(a, b, t, j);
        assert false;
      }
      assert (a + b)[j..j + |t|] == a[j..j + |t|];
    }
    if OccursAt(a, t, j) {
      assert (a + b)[j..j + |t|] == a[j..j + |t|];
    }
  }

  /** An occurrence of `t` in `a + b` that reaches into `b` shares a character with `b`. */
  lemma {:induction false} OccurrenceTouchingRight(a: string, b: string, t: string, j: nat)
    requires |t| > 0 && |b| > 0 && OccursAt(a + b, t, j) && j + |t| > |a|
    ensures b[0] in t || t[0] in b
  {
    if j <= |a| {
      assert t[|a| - j] == (a + b)[|a|] == b[0];
    } else {
      assert t[0] == (a + b)[j] == b[j - |a|];
    }
  }

  /** Appending such a `b` does not move the first occurrence of `t`. */
  lemma {:induction false} IndexOfAppendRight(a: string, b: string, t: string)
    requires |t| > 0 && |b| > 0 && b[0] !in t && t[0] !in b
    ensures IndexOf(a + b, t) == IndexOf(a, t)
  {
    forall j: nat ensures OccursAt(a + b, t, j) <==> OccursAt(a, t, j) {
      OccurrencesStayLeft(a, b, t, j);
    }
    if IndexOf(a, t).Some? {
      IndexOfIs(a + b, t, IndexOf(a, t).value);
    }
  }

  /** Appending such a `b` commutes with replacing `t`. */
  lemma {:induction false} ReplaceAppend(a: string, b: string, t: string, rep: string)
    requires |t| > 0 && |b| > 0 && b[0] !in t && t[0] !in b
    ensures Replace(a + b, t, rep) == Replace(a, t, rep) + b
    decreases |a|
  {
    IndexOfAppendRight(a, b, t);
    match IndexOf(a, t)
    case None =>
      ReplaceNone(a + b, t, rep);
      ReplaceNone(a, t, rep);
    case Some(i) =>
      var x, y := a[..i], a[i + |t|..];
      ReplaceAt(a, t, rep, i);
      ReplaceAt(a + b, t, rep, i);
      DropAppend(a, b, i + |t|);
      TakeAppend(a, b, i);
      ReplaceAppend(y, b, t, rep);
      AppendAssoc(x + rep, Replace(y, t, rep), b);
  }

  /** Without an occurrence nothing is replaced. */
  lemma {:induction false} ReplaceNone(s: string, t: string, rep: string)
    requires |t| > 0 && IndexOf(s, t).None?
    ensures Replace(s, t, rep) == s
  {
  }

  /** The first occurrence is replaced and the scan goes on after it. */
  lemma {:induction false} ReplaceAt(s: string, t: string, rep: string, i: nat)
    requires |t| > 0 && IndexOf(s, t) == Some(i)
    ensures i + |t| <= |s|
    ensures Replace(s, t, rep) == s[..i] + rep + Replace(s[i + |t|..], t, rep)
  {
  }

  /** Reference definition of replacing one character by another, position by position. */
  function SubstChar(s: string, c: char, d: char): (r: string)
    ensures |r| == |s|
    ensures forall k :: 0 <= k < |s| ==> r[k] == if s[k] == c then d else s[k]
  {
    if s == [] then [] else [if s[0] == c then d else s[0]] + SubstChar(s[1..], c, d)
  }

  lemma {:induction false} SubstCharAppend(a: string, b: string, c: char, d: char)
    ensures SubstChar(a + b, c, d) == SubstChar(a, c, d) + SubstChar(b, c, d)
    decreases |a|
  {
    if a == [] {
      assert a + b == b;
    } else {
      assert (a + b)[1..] == a[1..] + b;
      SubstCharAppend(a[1..], b, c, d);
    }
  }

  lemma {:induction false} SubstCharAbsent(s: string, c: char, d: char)
    requires c !in s
    ensures SubstChar(s, c, d) == s
  {
    forall k | 0 <= k < |s|
      ensures SubstChar(s, c, d)[k] == s[k]
    {
      assert s[k] in s;
    }
  }

  /** For one-character patterns, replace works position by position. */
  lemma {:induction false} ReplaceChar(s: string, c: char, d: char)
    ensures Replace(s, [c], [d]) == SubstChar(s, c, d)
    decreases |s|
  {
    match IndexOf(s, [c])
    case None =>
      IndexOfChar(s, c);
      SubstCharAbsent(s, c, d);
    case Some(i) =>
      ReplaceChar(s[i + 1..], c, d);
      ReplaceCharStep(s, c, d, i);
  }

  lemma {:induction false} ReplaceCharStep(s: string, c: char, d: char, i: nat)
    requires IndexOf(s, [c]) == Some(i)
    requires Replace(s[i + 1..], [c], [d]) == SubstChar(s[i + 1..], c, d)
    ensures Replace(s, [c], [d]) == SubstChar(s, c, d)
  {
    IndexOfChar(s, c);
    var pre, post := s[..i], s[i + 1..];
    assert s == pre + [c] + post;
    assert Replace(s, [c], [d]) == pre + [d] + Replace(post, [c], [d]);
    SubstCharAppend(pre + [c], post, c, d);
    SubstCharAppend(pre, [c], c, d);
    SubstCharAbsent(pre, c, d);
    assert SubstChar([c], c, d) == [d];
  }

  // ---------------------------------------------------------------------------
  // String.split(String) with a literal pattern and limit 0
  // ---------------------------------------------------------------------------

  /** Every piece between occurrences of `sep`, empty pieces included. */
  function SplitAll(s: string, sep: string): (r: seq<string>)
    requires |sep| > 0
    decreases |s|
    ensures |r| > 0
  {
    match IndexOf(s, sep)
    case None => [s]
    case Some(i) => [s[..i]] + SplitAll(s[i + |sep|..], sep)
  }

  /** Removes the trailing empty strings, as split does with limit 0. */
  function DropTrailingEmpty(xs: seq<string>): (r: seq<string>)
    ensures |r| <= |xs| && r == xs[..|r|]
    ensures r == [] || r[|r| - 1] != ""
    ensures forall k :: |r| <= k < |xs| ==> xs[k] == ""
  {
    if xs == [] then []
    else if xs[|xs| - 1] == "" then DropTrailingEmpty(xs[..|xs| - 1])
    else xs
  }

  /** String.split: without a match the result is the input alone (even when it is empty);
      otherwise the pieces with trailing empty pieces removed. */
  function Split(s: string, sep: string): seq<string>
    requires |sep| > 0
  {
    if !Contains(s, sep) then [s] else DropTrailingEmpty(SplitAll(s, sep))
  }

  /** Array indexing `xs[i]`; `None` is the ArrayIndexOutOfBoundsException. */
  function At(xs: seq<string>, i: nat): (r: Option<string>)
    ensures r.Some? <==> i < |xs|
  {
    if i < |xs| then Some(xs[i]) else None
  }

  /** Dropping trailing empties from `[x] + ys` is decided by what is left of `ys`. */
  lemma {:induction false} DropTrailingEmptyCons(x: string, ys: seq<string>)
    ensures DropTrailingEmpty([x] + ys) ==
      if DropTrailingEmpty(ys) != [] then [x] + DropTrailingEmpty(ys)
      else if x == "" then [] else [x]
    decreases |ys|
  {
    if ys != [] && ys[|ys| - 1] == "" {
      assert ([x] + ys)[..|ys|] == [x] + ys[..|ys| - 1];
      DropTrailingEmptyCons(x, ys[..|ys| - 1]);
    }
  }

  /** When `s` does not begin with `sep`, `split(sep)[0]` exists and is the text before the
      first `sep`, or all of `s`. */
  lemma {:induction false} SplitFirst(s: string, sep: string)
    requires |sep| > 0 && |s| > 0 && s[0] != sep[0]
    ensures |Split(s, sep)| > 0
    ensures Split(s, sep)[0] == match IndexOf(s, sep) case None => s case Some(i) => s[..i]
  {
    if IndexOf(s, sep).Some? {
      var i := IndexOf(s, sep).value;
      assert OccursAt(s, sep, i);
      assert s[i..i + |sep|][0] == s[i];
      assert i > 0;
      var xs := SplitAll(s, sep);
      assert xs[0] == s[..i] && xs[0] != "";
    }
  }

  /** With exactly one `sep` and text after it, split yields the two sides. */
  lemma {:induction false} SplitOnce(s: string, sep: string, i: nat)
    requires |sep| > 0 && IndexOf(s, sep) == Some(i)
    requires s[i + |sep|..] != "" && !Contains(s[i + |sep|..], sep)
    ensures Split(s, sep) == [s[..i], s[i + |sep|..]]
  {
    assert SplitAll(s, sep) == [s[..i], s[i + |sep|..]];
  }

  // ---------------------------------------------------------------------------
  // Case mapping (ASCII), trim, whitespace
  // ---------------------------------------------------------------------------

  /** Character.toLowerCase restricted to ASCII. */
  function LowerChar(c: char): char {
    if 'A' <= c <= 'Z' then (c as int + 32) as char else c
  }

  /** Character.toUpperCase restricted to ASCII. */
  function UpperChar(c: char): char {
    if 'a' <= c <= 'z' then (c as int - 32) as char else c
  }

  /** String.toLowerCase restricted to ASCII. */
  function ToLower(s: string): string {
    seq(|s|, i requires 0 <= i < |s| => LowerChar(s[i]))
  }

  /** StringBuilder.insert(offset, t). */
  function Insert(s: string, offset: nat, t: string): string
    requires offset <= |s|
  {
    s[..offset] + t + s[offset..]
  }

  /** Java regex `\s`: space, tab, line feed, vertical tab, form feed, carriage return. */
  predicate IsRegexSpace(c: char) {
    c as int == 32 || 9 <= c as int <= 13
  }

  /** jsoup StringUtil.isWhitespace: space, tab, line feed, form feed, carriage return. */
  predicate IsJsoupSpace(c: char) {
    c as int == 32 || c as int == 9 || c as int == 10 || c as int == 12 || c as int == 13
  }

  /** jsoup StringUtil.isBlank: empty or only whitespace. */
  predicate IsBlank(s: string) {
    forall i :: 0 <= i < |s| ==> IsJsoupSpace(s[i])
  }

  /** `replaceAll("\\s+", "")`: every whitespace run removed. */
  function RemoveWhitespace(s: string): (r: string)
    ensures forall c :: c in r <==> c in s && !IsRegexSpace(c)
  {
    if s == [] then []
    else (if IsRegexSpace(s[0]) then [] else [s[0]]) + RemoveWhitespace(s[1..])
  }

  /** `replaceAll("_+", "_")`: every run of underscores becomes one underscore. */
  function CollapseUnderscores(s: string): (r: string)
    ensures forall c :: c in r <==> c in s
    ensures |s| > 0 ==> |r| > 0 && r[0] == s[0]
    ensures forall i :: 0 <= i < |r| - 1 ==> !(r[i] == '_' && r[i + 1] == '_')
  {
    if |s| < 2 then s
    else if s[0] == '_' && s[1] == '_' then CollapseUnderscores(s[1..])
    else [s[0]] + CollapseUnderscores(s[1..])
  }

  /** String.trim removes characters up to U+0020 from both ends. */
  function TrimStart(s: string): (r: string)
    ensures |r| <= |s| && r == s[|s| - |r|..]
    ensures r == [] || r[0] > ' '
    ensures forall k :: 0 <= k < |s| - |r| ==> s[k] <= ' '
  {
    if |s| > 0 && s[0] <= ' ' then TrimStart(s[1..]) else s
  }

  function TrimEnd(s: string): (r: string)
    ensures |r| <= |s| && r == s[..|r|]
    ensures r == [] || r[|r| - 1] > ' '
    ensures forall k :: |r| <= k < |s| ==> s[k] <= ' '
  {
    if |s| > 0 && s[|s| - 1] <= ' ' then TrimEnd(s[..|s| - 1]) else s
  }

  /** String.trim. */
  function Trim(s: string): string {
    TrimEnd(TrimStart(s))
  }

  /** Trimming the front of `x + y` stops inside `x` when `x` holds a visible character. */
  lemma {:induction false} TrimStartAppend(x: string, y: string, k: nat)
    requires k < |x| && x[k] > ' '
    ensures TrimStart(x + y) == TrimStart(x) + y
    decreases |x|
  {
    assert (x + y)[0] == x[0];
    if x[0] <= ' ' {
      assert (x + y)[1..] == x[1..] + y;
      TrimStartAppend(x[1..], y, k - 1);
    }
  }

  /** Trimming the end of `x + y` stops inside `y` when `y` holds a visible character. */
  lemma {:induction false} TrimEndAppend(x: string, y: string, k: nat)
    requires k < |y| && y[k] > ' '
    ensures TrimEnd(x + y) == x + TrimEnd(y)
    decreases |y|
  {
    if y[|y| - 1] <= ' ' {
      assert (x + y)[..|x + y| - 1] == x + y[..|y| - 1];
      TrimEndAppend(x, y[..|y| - 1], k);
    }
  }

  /** Taking one more element appends it. */
  lemma {:induction false} TakeSnoc<T>(s: seq<T>, k: nat)
    requires k < |s|
    ensures s[..k + 1] == s[..k] + [s[k]]
  {
  }

  /** Widening a slice by one element appends it. */
  lemma {:induction false} SliceSnoc<T>(s: seq<T>, a: nat, b: nat)
    requires a < b <= |s|
    ensures s[a..b] == s[a..b - 1] + [s[b - 1]]
  {
  }

  /** A suffix splits at any later index. */
  lemma {:induction false} DropSplit<T>(s: seq<T>, a: nat, b: nat)
    requires a <= b <= |s|
    ensures s[a..] == s[a..b] + s[b..]
  {
  }

  /** A non-empty suffix is its first element followed by the rest. */
  lemma {:induction false} DropCons<T>(s: seq<T>, i: nat)
    requires i < |s|
    ensures s[i..] == [s[i]] + s[i + 1..]
  {
  }

  /** Cutting a concatenation where its halves meet gives the halves back. */
  lemma {:induction false} AppendHalves<T>(a: seq<T>, b: seq<T>)
    ensures (a + b)[..|a|] == a && (a + b)[|a|..] == b
  {
  }

  lemma {:induction false} AppendAssoc<T>(a: seq<T>, b: seq<T>, c: seq<T>)
    ensures a + (b + c) == (a + b) + c
  {
  }

  lemma {:induction false} DropAppend<T>(a: seq<T>, b: seq<T>, j: nat)
    requires j <= |a|
    ensures (a + b)[j..] == a[j..] + b
  {
  }

  lemma {:induction false} TakeAppend<T>(a: seq<T>, b: seq<T>, j: nat)
    requires j <= |a|
    ensures (a + b)[..j] == a[..j]
  {
  }
}
