/**
 * The `<activity>` registration of CovActivityCreatorDialog.createFiles: the element it
 * inserts before the first `</application>` of the module's AndroidManifest.xml, the trimmed
 * text it writes back, and the file step that reads and writes the manifest.
 */
module Manifest {
  import opened Wrappers
  import opened JavaStrings
  import opened Paths
  import opened Workspace
  import opened CreatorRules

  const ApplicationEnd := "</application>"

  /** The element's opening: `<activity`, a line break and the attribute indentation. */
  const ElementHead := "<activity\n" + "            "

  /** The `android:name` attribute: the package text, a dot and the class name. */
  function NameAttribute(packageName: Option<string>, className: string): string {
    "android:name=\"" + JavaText(packageName) + "." + className + "\""
  }

  /** The `<activity>` element that createFiles registers. */
  function ActivityElement(packageName: Option<string>, className: string): string {
    ElementHead + NameAttribute(packageName, className) + "\n" +
    "            android:exported=\"false\" />\n"
  }

  /** What is inserted: a line break, the indentation, the element. */
  function ActivityEntry(packageName: Option<string>, className: string): string {
    "\n        " + ActivityElement(packageName, className)
  }

  /** The manifest update of createFiles: insert `entry` before the first `</application>`
      and trim the result; `None` when there is no `</application>` and nothing is written. */
  function InsertActivity(content: string, entry: string): (r: Option<string>)
    ensures r.None? <==> !Contains(content, ApplicationEnd)
  {
    match IndexOf(content, ApplicationEnd)
    case None => None
    case Some(i) => Some(Trim(content[..i] + entry + content[i..]))
  }

  /** The element starts with `<activity` and names the class `packageName.className`. */
  lemma {:induction false} ActivityElementShape(packageName: Option<string>, className: string)
    ensures var el := ActivityElement(packageName, className);
      StartsWith(el, "<activity\n") &&
      OccursAt(el, "android:name=\"" + JavaText(packageName) + "." + className + "\"", 22)
  {
    var name := NameAttribute(packageName, className);
    var tail := "\n" + "            android:exported=\"false\" />\n";
    assert |ElementHead| == 22 && ElementHead[..10] == "<activity\n";
    PartsOf(ElementHead, name, tail);
  }

  /** Slicing a concatenation of three parts gives back the first two. */
  lemma {:induction false} PartsOf(a: string, b: string, c: string)
    ensures (a + b + c)[..|a|] == a && (a + b + c)[|a|..|a| + |b|] == b
  {
    var s := a + b + c;
    assert forall k | 0 <= k < |a| :: s[k] == a[k];
    assert forall k | 0 <= k < |b| :: s[|a| + k] == b[k];
  }

  /** The updated manifest keeps the text before the first `</application>` (only leading
      whitespace of the file can go), then the inserted element, then that `</application>`
      and the rest (only trailing whitespace of the file can go). */
  lemma {:induction false} InsertActivityPlacement(content: string, el: string)
    requires Contains(content, ApplicationEnd)
    requires |el| > 0 && el[0] > ' '
    ensures var i := IndexOf(content, ApplicationEnd).value;
      var r := InsertActivity(content, "\n        " + el).value;
      var front := TrimStart(content[..i] + "\n        " + el);
      r == front + TrimEnd(content[i..]) &&
      EndsWith(front, el) && StartsWith(TrimEnd(content[i..]), ApplicationEnd) &&
      forall j :: 0 <= j < i ==> !OccursAt(content, ApplicationEnd, j)
  {
    var i := IndexOf(content, ApplicationEnd).value;
    var x := content[..i] + "\n        " + el;
    var z := content[i..];
    assert content[..i] + ("\n        " + el) + z == x + z;
    assert x[i + 9] == el[0];
    TrimStartAppend(x, z, i + 9);
    EndTagAt(content, i);
    TrimEndAppend(TrimStart(x), z, 0);
    TrimmedFrontEndsWithElement(content[..i], el);
    TrimmedBackStartsWithEnd(z);
  }

  /** The text from an occurrence of `</application>` starts with it, so with `<`. */
  lemma {:induction false} EndTagAt(content: string, i: nat)
    requires OccursAt(content, ApplicationEnd, i)
    ensures StartsWith(content[i..], ApplicationEnd) && content[i..][0] == '<'
  {
    assert ApplicationEnd[0] == '<';
    assert content[i..][..|ApplicationEnd|] == content[i..i + |ApplicationEnd|];
  }

  /** Trimming the front of the text up to the element keeps the whole element. */
  lemma {:induction false} TrimmedFrontEndsWithElement(before: string, el: string)
    requires |el| > 0 && el[0] > ' '
    ensures EndsWith(TrimStart(before + "\n        " + el), el)
  {
    var x := before + "\n        " + el;
    var front := TrimStart(x);
    assert x[|before| + 9] == el[0];
    assert |x| - |front| <= |before| + 9;
    assert front[|front| - |el|..] == x[|x| - |el|..] == el;
  }

  /** Trimming the end of a text that starts with `</application>` keeps that tag. */
  lemma {:induction false} TrimmedBackStartsWithEnd(z: string)
    requires StartsWith(z, ApplicationEnd)
    ensures StartsWith(TrimEnd(z), ApplicationEnd)
  {
    var tz := TrimEnd(z);
    assert z[..14] == ApplicationEnd;
    assert z[13] == '>';
    assert |tz| >= 14;
    assert tz[..14] == z[..14];
  }

  /** The manifest step: read it (a missing manifest ends createFiles through the caught
      IOException), and write the updated text when it has an `</application>`. */
  function UpdateManifest(files: map<AbsPath, string>, manifest: Option<AbsPath>, entry: string): map<AbsPath, string> {
    if manifest.None? || manifest.value !in files then files
    else match InsertActivity(files[manifest.value], entry)
      case None => files
      case Some(updated) => files[manifest.value := updated]
  }

  /** The manifest step changes no file but the manifest, and leaves in the manifest the
      updated text. */
  lemma {:induction false} UpdateManifestEffect(files: map<AbsPath, string>, manifest: Option<AbsPath>, entry: string)
    ensures var r := UpdateManifest(files, manifest, entry);
      r.Keys == files.Keys &&
      (forall p :: p in files && (manifest.None? || p != manifest.value) ==> r[p] == files[p]) &&
      (manifest.Some? && manifest.value in files ==> r[manifest.value] == ManifestAfter(files[manifest.value], entry))
  {
    if manifest.Some? && manifest.value in files {
      var m := manifest.value;
      match InsertActivity(files[m], entry)
      case None =>
      case Some(updated) =>
        assert UpdateManifest(files, manifest, entry) == files[m := updated];
    }
  }

  /** The manifest text after the update: unchanged without an `</application>`. */
  function ManifestAfter(content: string, entry: string): string {
    match InsertActivity(content, entry)
    case None => content
    case Some(updated) => updated
  }

  /** The manifest step of createFiles. */
  method UpdateManifestFile(fs: FileSystem, manifestFile: Option<AbsPath>, entry: string)
    modifies fs
    ensures fs.files == UpdateManifest(old(fs.files), manifestFile, entry) && fs.dirs == old(fs.dirs)
  {
    if manifestFile.Some? {
      var content := fs.Read(manifestFile.value);
      if content.None? {
        return;
      }
      if !Contains(content.value, ApplicationEnd) {
        return;
      }
      var insertIndex := IndexOf(content.value, ApplicationEnd).value;
      var sb := content.value[..insertIndex] + entry + content.value[insertIndex..];
      fs.Write(manifestFile.value, Trim(sb));
    }
  }
}
