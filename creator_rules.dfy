/**
 * What the four creator dialogs share: the name pattern their validators apply, what a
 * validator does to the error label and the OK button, the derivation of a default layout name
 * from a class name, and the pieces of generated source text they have in common.
 */
module CreatorRules {
  import opened Wrappers
  import opened JavaStrings
  import opened Names

  // ---------------------------------------------------------------------------
  // Names
  // ---------------------------------------------------------------------------

  /** The character class `[A-Za-z0-9_-]`. */
  predicate IsNameChar(c: char) {
    'A' <= c <= 'Z' || 'a' <= c <= 'z' || '0' <= c <= '9' || c == '_' || c == '-'
  }

  /** String.matches("[A-Za-z0-9_-]+"): the whole text is one or more name characters. */
  predicate MatchesName(s: string) {
    |s| > 0 && forall i :: 0 <= i < |s| ==> IsNameChar(s[i])
  }

  /** A name that matches the pattern is never blank. */
  lemma {:induction false} NameIsNotBlank(s: string)
    requires MatchesName(s)
    ensures !IsBlank(s)
  {
    assert IsNameChar(s[0]) && !IsJsoupSpace(s[0]);
  }

  // ---------------------------------------------------------------------------
  // Validators
  // ---------------------------------------------------------------------------

  /** What a validator does: hide the error label and set OK to `ok`, or show `message` and
      disable OK. */
  datatype Verdict = Accept(ok: bool) | Reject(message: string)

  /** A required name (class or layout name): it must match the pattern, and OK is enabled
      exactly when the other required fields are `othersFilled`. */
  function CheckName(name: string, othersFilled: bool, message: string): (v: Verdict)
    ensures v.Accept? <==> MatchesName(name)
    ensures v == Accept(true) ==> !IsBlank(name) && othersFilled
    ensures v.Reject? ==> v.message == message
  {
    if MatchesName(name) then
      NameIsNotBlank(name);
      Accept(othersFilled)
    else Reject(message)
  }

  /** An optional name (ViewModel or POJO name): the empty text is accepted as well. */
  function CheckOptionalName(name: string, othersFilled: bool, message: string): (v: Verdict)
    ensures v.Accept? <==> name == "" || MatchesName(name)
    ensures v.Accept? ==> v.ok == othersFilled
    ensures v.Reject? ==> v.message == message && name != ""
  {
    if name == "" || MatchesName(name) then Accept(othersFilled) else Reject(message)
  }

  /** The error label and the OK button of a creator dialog. createCenterPanel disables OK;
      the label's visibility and text start as the dialog's GUI form lays them out, given here
      as `formHintVisible` and `formHintText`. */
  class Feedback {
    var hintVisible: bool
    var hintText: string
    var okEnabled: bool

    constructor(formHintVisible: bool, formHintText: string)
      ensures hintVisible == formHintVisible && hintText == formHintText && !okEnabled
    {
      hintVisible := formHintVisible;
      hintText := formHintText;
      okEnabled := false;
    }

    /** Apply a validator's verdict: hide the label and set OK, or show the message and
        disable OK. */
    method Show(v: Verdict)
      modifies this
      ensures v.Accept? ==> !hintVisible && okEnabled == v.ok && hintText == old(hintText)
      ensures v.Reject? ==> hintVisible && hintText == v.message && !okEnabled
    {
      match v
      case Accept(ok) =>
        hintVisible := false;
        okEnabled := ok;
      case Reject(message) =>
        hintVisible := true;
        hintText := message;
        okEnabled := false;
    }
  }

  // ---------------------------------------------------------------------------
  // Default layout names
  // ---------------------------------------------------------------------------

  /** The chain of `.replace(t, "")` calls, one per element of `removed`, in order. */
  function RemoveEach(s: string, removed: seq<string>): (r: string)
    requires forall k :: 0 <= k < |removed| ==> |removed[k]| > 0
    ensures forall c :: c in r ==> c in s
    decreases |removed|
  {
    if removed == [] then s
    else
      ReplaceChars(s, removed[0], "");
      RemoveEach(Replace(s, removed[0], ""), removed[1..])
  }

  /** The translated class name after the removals, `replaceAll("\\s+", "")` and
      `replaceAll("_+", "_")`. */
  function LayoutStem(className: string, removed: seq<string>): (r: string)
    requires forall k :: 0 <= k < |removed| ==> |removed[k]| > 0
    ensures forall i :: 0 <= i < |r| - 1 ==> !(r[i] == '_' && r[i + 1] == '_')
  {
    CollapseUnderscores(RemoveWhitespace(RemoveEach(LayoutNameOf(className), removed)))
  }

  /** `(stem.startsWith("_") ? kind : kind + "_") + stem`. */
  function WithKind(kind: string, stem: string): string {
    (if StartsWith(stem, "_") then kind else kind + "_") + stem
  }

  /** The kind, one `_`, then the stem without its leading `_`: the result starts with
      `kind + "_"`, and it has no `__` when neither the kind nor the stem has one and the kind
      does not end in `_`. */
  lemma {:induction false} WithKindShape(kind: string, stem: string)
    requires |kind| > 0 && kind[|kind| - 1] != '_'
    ensures WithKind(kind, stem) == kind + "_" + (if StartsWith(stem, "_") then stem[1..] else stem)
    ensures StartsWith(WithKind(kind, stem), kind + "_")
    ensures NoDoubleUnderscore(kind) && NoDoubleUnderscore(stem) ==> NoDoubleUnderscore(WithKind(kind, stem))
  {
    var r := WithKind(kind, stem);
    var rest := if StartsWith(stem, "_") then stem[1..] else stem;
    if StartsWith(stem, "_") {
      assert stem == "_" + stem[1..];
    }
    assert r == kind + "_" + rest;
    assert r[..|kind| + 1] == kind + "_";
    if NoDoubleUnderscore(kind) && NoDoubleUnderscore(stem) {
      forall i | 0 <= i < |r| - 1
        ensures !(r[i] == '_' && r[i + 1] == '_')
      {
        if i < |kind| - 1 {
          assert r[i] == kind[i] && r[i + 1] == kind[i + 1];
        } else if i == |kind| - 1 {
          assert r[i] == kind[|kind| - 1];
        } else if i == |kind| {
          assert r[i + 1] == rest[0];
          if StartsWith(stem, "_") {
            assert rest[0] == stem[1] && stem[0] == '_';
          }
        } else {
          var j := i - |kind| - 1;
          assert r[i] == rest[j] && r[i + 1] == rest[j + 1];
          if StartsWith(stem, "_") {
            assert rest[j] == stem[j + 1] && rest[j + 1] == stem[j + 2];
          }
        }
      }
    }
  }

  /** A name character or a `\s` character. */
  predicate NameOrSpace(c: char) {
    IsNameChar(c) || IsRegexSpace(c)
  }

  /** Translating keeps every character a name or space character. */
  lemma {:induction false} LayoutPrefixChars(s: string, j: nat)
    requires j <= |s| && forall i :: 0 <= i < |s| ==> NameOrSpace(s[i])
    ensures forall k :: 0 <= k < |LayoutPrefix(s, j)| ==> NameOrSpace(LayoutPrefix(s, j)[k])
    decreases j
  {
    if j > 0 {
      LayoutPrefixChars(s, j - 1);
      var c := s[j - 1];
      assert NameOrSpace(c) && NameOrSpace(LowerChar(c));
      var p := Piece(s, j - 1);
      assert forall k :: 0 <= k < |p| ==> NameOrSpace(p[k]);
    }
  }

  /** Every character of the stem is a name character when the class name holds only name and
      `\s` characters. */
  lemma {:induction false} LayoutStemChars(className: string, removed: seq<string>)
    requires forall k :: 0 <= k < |removed| ==> |removed[k]| > 0
    requires forall i :: 0 <= i < |className| ==> NameOrSpace(className[i])
    ensures forall i :: 0 <= i < |LayoutStem(className, removed)| ==> IsNameChar(LayoutStem(className, removed)[i])
  {
    LayoutPrefixChars(className, |className|);
    var t := LayoutNameOf(className);
    var u := RemoveEach(t, removed);
    var stem := LayoutStem(className, removed);
    forall i | 0 <= i < |stem|
      ensures IsNameChar(stem[i])
    {
      var c := stem[i];
      assert c in RemoveWhitespace(u);
      assert c in u && !IsRegexSpace(c);
      assert c in t;
    }
  }

  /** The default layout name `WithKind(kind, stem)` for a kind made of lower-case letters is
      a valid layout name when the class name holds only name and `\s` characters. */
  lemma {:induction false} WithKindMatches(kind: string, stem: string)
    requires |kind| > 0 && forall i :: 0 <= i < |kind| ==> 'a' <= kind[i] <= 'z'
    requires forall i :: 0 <= i < |stem| ==> IsNameChar(stem[i])
    ensures MatchesName(WithKind(kind, stem))
  {
    var r := WithKind(kind, stem);
    var head := if StartsWith(stem, "_") then kind else kind + "_";
    forall i | 0 <= i < |r|
      ensures IsNameChar(r[i])
    {
      if i < |head| {
        assert r[i] == head[i];
      } else {
        assert r[i] == stem[i - |head|];
      }
    }
  }

  /** A valid name followed by a valid name is a valid name. */
  lemma {:induction false} MatchesAppend(a: string, b: string)
    requires MatchesName(a) && MatchesName(b)
    ensures MatchesName(a + b)
  {
    var r := a + b;
    forall i | 0 <= i < |r|
      ensures IsNameChar(r[i])
    {
      if i < |a| {
        assert r[i] == a[i];
      } else {
        assert r[i] == b[i - |a|];
      }
    }
  }

  /** Two texts without `__` joined so that no `_` meets another make a text without `__`. */
  lemma {:induction false} NoDoubleUnderscoreAppend(a: string, b: string)
    requires NoDoubleUnderscore(a) && NoDoubleUnderscore(b)
    requires a == [] || b == [] || a[|a| - 1] != '_' || b[0] != '_'
    ensures NoDoubleUnderscore(a + b)
  {
    var r := a + b;
    forall i | 0 <= i < |r| - 1
      ensures !(r[i] == '_' && r[i + 1] == '_')
    {
      if i + 1 < |a| {
        assert r[i] == a[i] && r[i + 1] == a[i + 1];
      } else if i + 1 == |a| {
        assert r[i] == a[i] && r[i + 1] == b[0];
      } else {
        assert r[i] == b[i - |a|] && r[i + 1] == b[i + 1 - |a|];
      }
    }
  }

  /** The default layout name `WithKind(kind, LayoutStem(className, removed))` of a dialog
      whose kind is a word of lower-case letters starts with `kind_`, has no `__`, always has
      a binding class name, and passes the layout name check when the class name holds only
      name and `\s` characters. */
  lemma {:induction false} DefaultLayoutShape(kind: string, className: string, removed: seq<string>)
    requires |kind| > 0 && forall i :: 0 <= i < |kind| ==> 'a' <= kind[i] <= 'z'
    requires forall k :: 0 <= k < |removed| ==> |removed[k]| > 0
    ensures var d := WithKind(kind, LayoutStem(className, removed));
      StartsWith(d, kind + "_") && NoDoubleUnderscore(d) && LayoutToBindings(d).Some?
    ensures (forall i :: 0 <= i < |className| ==> NameOrSpace(className[i])) ==>
      MatchesName(WithKind(kind, LayoutStem(className, removed)))
  {
    var stem := LayoutStem(className, removed);
    var d := WithKind(kind, stem);
    assert NoDoubleUnderscore(kind);
    WithKindShape(kind, stem);
    assert d[0] == kind[0];
    BindingOfSimpleName(d);
    if forall i :: 0 <= i < |className| ==> NameOrSpace(className[i]) {
      LayoutStemChars(className, removed);
      WithKindMatches(kind, stem);
    }
  }

  /** A name that starts with a character other than `_` and has no `__` splits into
      non-empty segments, so layoutToBindings succeeds on it. */
  lemma {:induction false} BindingOfSimpleName(t: string)
    requires |t| > 0 && t[0] != '_' && NoDoubleUnderscore(t)
    ensures LayoutToBindings(t).Some?
  {
    forall p, q | 0 <= p < q < |t|
      ensures !EmptySegmentAt(t, p, q)
    {
      if p > 0 {
        assert !(t[p - 1] == '_' && t[p] == '_');
      }
    }
    LayoutToBindingsDefined(t);
  }

  // ---------------------------------------------------------------------------
  // Generated text
  // ---------------------------------------------------------------------------

  /** The lines of a generated file, each with its own line break, put together. */
  function Concat(lines: seq<string>): string {
    if lines == [] then "" else lines[0] + Concat(lines[1..])
  }

  lemma {:induction false} ConcatAppend(a: seq<string>, b: seq<string>)
    ensures Concat(a + b) == Concat(a) + Concat(b)
    decreases |a|
  {
    if a == [] {
      assert a + b == b;
    } else {
      assert (a + b)[1..] == a[1..] + b;
      ConcatAppend(a[1..], b);
    }
  }

  /** The text of lines opens with the text of its first two lines. */
  lemma {:induction false} ConcatFirstTwo(lines: seq<string>)
    requires |lines| >= 2
    ensures StartsWith(Concat(lines), lines[0] + lines[1])
  {
    var rest := Concat(lines[2..]);
    assert lines[1..][1..] == lines[2..];
    assert Concat(lines) == lines[0] + (lines[1] + rest);
    assert Concat(lines) == (lines[0] + lines[1]) + rest;
    assert Concat(lines)[..|lines[0] + lines[1]|] == lines[0] + lines[1];
  }

  /** Java string concatenation of the `packageName` field, which stays null while no
      package candidate was found. */
  function JavaText(o: Option<string>): string {
    match o
    case None => "null"
    case Some(s) => s
  }

  /** The packageName field as the dialogs' constructors set it: the first candidate, or null
      when there is none. */
  function InitialPackage(pkgList: seq<string>): (r: Option<string>)
    ensures r.None? <==> pkgList == []
    ensures r.Some? ==> r.value == pkgList[0] && r.value in pkgList
  {
    if pkgList == [] then None else Some(pkgList[0])
  }

  /** ` @Inject constructor()` when Hilt is checked. */
  function InjectConstructor(hilt: bool): string {
    if hilt then " @Inject constructor()" else ""
  }

  const LayoutHead := "<?xml version=\"1.0\" encoding=\"utf-8\"?>\n"

  /** The layout text up to the height line. */
  const LayoutBeforeHeight := LayoutHead +
    "<layout xmlns:android=\"http://schemas.android.com/apk/res/android\">\n" +
    "\n" +
    "    <data>\n" +
    "\n" +
    "    </data>\n" +
    "\n" +
    "    <LinearLayout\n" +
    "        android:layout_width=\"match_parent\"\n"

  /** The layout text after the height line. */
  const LayoutAfterHeight :=
    "        android:orientation=\"vertical\">\n" +
    "\n" +
    "    </LinearLayout>\n" +
    "</layout>"

  /** The LinearLayout's height attribute line. */
  function HeightLine(height: string): string {
    "        android:layout_height=\"" + height + "\"\n"
  }

  /** The data-binding layout file the dialogs write: an empty `<data>` block and a vertical
      LinearLayout of the given height, whose line sits right after the width line. */
  function BindingLayout(height: string): (r: string)
    ensures StartsWith(r, LayoutHead) && EndsWith(r, "</layout>")
    ensures OccursAt(r, HeightLine(height), |LayoutBeforeHeight|)
    ensures |r| == |LayoutBeforeHeight| + |HeightLine(height)| + |LayoutAfterHeight|
  {
    var r := LayoutBeforeHeight + HeightLine(height) + LayoutAfterHeight;
    assert r[..|LayoutHead|] == LayoutHead;
    assert r[|LayoutBeforeHeight|..|LayoutBeforeHeight| + |HeightLine(height)|] == HeightLine(height);
    assert r[|r| - 9..] == "</layout>";
    r
  }

  /** The layout text is different for different heights: the adapter's `wrap_content` item
      layout and the other dialogs' `match_parent` layout differ. */
  lemma {:induction false} BindingLayoutHeight(h1: string, h2: string)
    ensures BindingLayout(h1) == BindingLayout(h2) <==> h1 == h2
  {
    if BindingLayout(h1) == BindingLayout(h2) {
      var r := BindingLayout(h1);
      var n := |LayoutBeforeHeight|;
      var hl1, hl2 := HeightLine(h1), HeightLine(h2);
      assert |h1| == |h2|;
      assert hl1 == r[n..n + |hl1|] == hl2;
      assert hl1[31..31 + |h1|] == h1 && hl2[31..31 + |h2|] == h2;
    }
  }

  /** A Kotlin import line. */
  function ImportLine(name: string): string {
    "import " + name + "\n"
  }

  /** The `layoutId` override that names the layout resource. */
  function LayoutIdLine(layoutName: string): string {
    "    override fun layoutId() = R.layout." + layoutName + "\n"
  }

  /** `class <name>[ @Inject constructor()] : <base><<typeArg>>() {`. */
  function ClassHeader(className: string, hilt: bool, base: string, typeArg: string): string {
    "class " + className + InjectConstructor(hilt) + " : " + base + "<" + typeArg + ">() {\n"
  }

  const HiltEntryPointImport := ImportLine("dagger.hilt.android.AndroidEntryPoint")
  const InjectImport := ImportLine("javax.inject.Inject")
  const BundleImport := ImportLine("android.os.Bundle")
  const MethodEnd := "    }\n"
  const ClassEnd := "}"

  /** Proof helper, not a property of the plugin:
      the distinguishing characters of the shared fixed lines. */
  lemma {:induction false} FixedMarks()
    ensures BundleImport[0] == 'i' && BundleImport[|BundleImport| - 2] == 'e'
    ensures HiltEntryPointImport[0] == 'i' && HiltEntryPointImport[|HiltEntryPointImport| - 2] == 't'
      && HiltEntryPointImport[|HiltEntryPointImport| - 3] == 'n'
    ensures InjectImport[0] == 'i' && InjectImport[|InjectImport| - 2] == 't' && InjectImport[|InjectImport| - 3] == 'c'
    ensures EntryPointAnnotation[0] == '@' && |EntryPointAnnotation| == 19
    ensures MethodEnd[0] == ' ' && MethodEnd[4] == '}' && |MethodEnd| == 6
    ensures ClassEnd == "}"
  {
  }

  const ViewImport := ImportLine("android.view.View")

  /** The template shape of the fragment and dialog fragment classes: the package line and
      imports, Hilt's two imports, a blank line, Hilt's annotation, then the class. */
  function WithHilt(imports: seq<string>, hilt: bool, classLines: seq<string>): seq<string> {
    imports + (if hilt then HiltImports else []) + ["\n"] + (if hilt then [EntryPointAnnotation] else []) + classLines
  }

  /** When the other lines are none of Hilt's lines, Hilt's imports and annotation appear
      exactly when Hilt is checked. */
  lemma {:induction false} WithHiltFlags(imports: seq<string>, hilt: bool, classLines: seq<string>)
    requires HiltEntryPointImport !in imports + classLines && InjectImport !in imports + classLines
    requires EntryPointAnnotation !in imports + classLines
    ensures var lines := WithHilt(imports, hilt, classLines);
      (HiltEntryPointImport in lines <==> hilt) && (InjectImport in lines <==> hilt) && (EntryPointAnnotation in lines <==> hilt)
  {
    FixedMarks();
    assert HiltEntryPointImport !in imports && HiltEntryPointImport !in classLines;
    assert InjectImport !in imports && InjectImport !in classLines;
    assert EntryPointAnnotation !in imports && EntryPointAnnotation !in classLines;
  }

  /** With Hilt, the class header is the one without Hilt with ` @Inject constructor()`
      inserted after the class name. */
  lemma {:induction false} InjectConstructorInserted(className: string, base: string, typeArg: string)
    ensures ClassHeader(className, true, base, typeArg) ==
      Insert(ClassHeader(className, false, base, typeArg), 6 + |className|, " @Inject constructor()")
  {
    var tail := " : " + base + "<" + typeArg + ">() {\n";
    var off := ClassHeader(className, false, base, typeArg);
    assert off == ("class " + className) + tail;
    assert off[..6 + |className|] == "class " + className;
    assert off[6 + |className|..] == tail;
  }

  /** A line is none of `lines` when its first character starts none of them. */
  lemma {:induction false} NotInByFirstChar(x: string, lines: seq<string>)
    requires |x| > 0 && forall i | 0 <= i < |lines| :: |lines[i]| > 0 && lines[i][0] != x[0]
    ensures x !in lines
  {
  }

  /** No line is empty and none starts with `a` or `b`. */
  predicate StartNotWith(lines: seq<string>, a: char, b: char) {
    forall i | 0 <= i < |lines| :: |lines[i]| > 0 && lines[i][0] != a && lines[i][0] != b
  }

  lemma {:induction false} StartNotWithAppend(xs: seq<string>, ys: seq<string>, a: char, b: char)
    requires StartNotWith(xs, a, b) && StartNotWith(ys, a, b)
    ensures StartNotWith(xs + ys, a, b)
  {
    var r := xs + ys;
    forall i | 0 <= i < |r|
      ensures |r[i]| > 0 && r[i][0] != a && r[i][0] != b
    {
      if i >= |xs| {
        assert r[i] == ys[i - |xs|];
      }
    }
  }

  /** The two imports Hilt adds to a fragment or dialog fragment class. */
  const HiltImports := [HiltEntryPointImport, InjectImport]
  const EntryPointAnnotation := "@AndroidEntryPoint\n"
}
