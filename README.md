# CovPlugin core in Dafny

CovPlugin is an IntelliJ plugin. It adds four creators: Activity, Fragment, DialogFragment and
RecyclerView adapter. They generate Kotlin classes and data-binding layouts for the
`comvvmhelper` MVVM library. This project models, and proves properties of, the parts that
compute something.

- **Name derivation** (`Utils`): the class-name to layout-name translation
  `transClassNameToLayoutName`, and the layout-name to binding-class translation
  `layoutToBindings` with its `upperCaseFirst`.
- **Module layout** (`Utils`):
  - the paths of a module's `AndroidManifest.xml` and `res/layout` directory;
  - the module header `fileHeader` and the package `fileToPackage` of a directory;
  - the source-root test `isSrcFile`.
- **Package candidates** (`Utils`):
  - the project scan `findAndGroupPkgList`, which finds the source roots, collects the package
    directories below them and groups those directories by module;
  - `pkgToList`, which expands a package into its ancestor chain;
  - `findMatchedPkgList`, which builds the candidate list offered in a dialog's package combo
    box.
- **The four creator dialogs** (`ui/Cov*CreatorDialog`):
  - the validators and the error label and OK button they drive;
  - the default layout (and ViewModel) names derived from the class name;
  - the generated class, ViewModel and layout texts;
  - `createFiles`: create the files, roll back when the module has no layout directory,
    write the texts, and register an activity in the manifest.

Modules, in dependency order:

| module | file | what it holds |
|---|---|---|
| `Wrappers` | wrappers.dfy | `Option` |
| `JavaStrings` | java_strings.dfy | the `java.lang.String` operations the source uses: `indexOf`, `contains`, `replace`, `split` (trailing empty strings dropped), `trim`, `toLowerCase`, `replaceAll("\\s+", "")`, `replaceAll("_+", "_")`, `StringUtil.isBlank` |
| `Names` | names.dfy | `transClassNameToLayoutName` as a method with its loops, proved against a reference function, and `layoutToBindings` |
| `Paths` | paths.dfy | `findAndroidManifestFile`, `findAndroidResLayoutFile`, `fileHeader`, `fileToPackage`, `isSrcFile` |
| `Packages` | packages.dfy | `pkgToList` and `findMatchedPkgList` (a method with its two loops) |
| `ProjectTree` | project_tree.dfy | the class `PackageScan`, whose fields are the three collections `findAndGroupPkgList` fills in place, with the recursive walkers as methods |
| `Workspace` | workspace.dfy | the class `FileSystem` (files and resolvable directories) and `getResLayoutPath` |
| `CreatorRules` | creator_rules.dfy | the shared name pattern, the class `Feedback` (error label and OK button), default layout names, and the shared template pieces |
| `Manifest` | manifest.dfy | the `<activity>` element and the manifest update |
| `FileCreation` | file_creation.dfy | `createFiles`, once for all four dialogs, as a reference function and a method over `FileSystem` |
| `ActivityCreator`, `FragmentCreator`, `DialogFragmentCreator`, `AdapterCreator` | activity_creator.dfy, fragment_creator.dfy, dialog_fragment_creator.dfy, adapter_creator.dfy | one class per dialog: its fields, its validators, its templates and its `createFiles` |

How the model represents the source:

- All paths are absolute (`File.getAbsolutePath`), so `AbsPath` is a string that starts
  with `/`.
- A Java runtime exception becomes `None`, or the outcome `Thrown`. Examples are
  `split(..)[1]` out of range, and `upperCaseFirst` of an empty segment.
- `null` `packageName` text is `"null"` in the generated text.

## Model

| member | source | states |
|---|---|---|
| Names.CollectUpperIndices | src/main/java/com/kuky/covplugin/Utils.java:23-25 | the list holds exactly the indices of the capitals `A`-`Z`, in increasing order |
| Names.DropIndexZero | src/main/java/com/kuky/covplugin/Utils.java:28 | after removing index 0 (if present) every index left is a capital at position 1 or later, increasing |
| Names.InsertUnderscores | src/main/java/com/kuky/covplugin/Utils.java:27-34 | inserting `_` at each remaining index plus the running offset into the lower-cased name gives the reference layout name |
| Names.TransClassNameToLayoutName | src/main/java/com/kuky/covplugin/Utils.java:18-37 | the result is the reference layout name: the name lower-cased with `_` before every capital except one at index 0 |
| Names.LayoutNameLength | src/main/java/com/kuky/covplugin/Utils.java:18-37 | the layout name is as long as the class name plus one per capital after index 0 |
| Names.LayoutNameHasNoCapitals | src/main/java/com/kuky/covplugin/Utils.java:18-37 | no character of the translated name is a capital |
| Names.LayoutNamePlacement | src/main/java/com/kuky/covplugin/Utils.java:18-37 | character i lands, lower-cased, at i plus the number of capitals after index 0 up to i, with `_` right before it when it is a capital after index 0 |
| Names.CapitalizeFrom | src/main/java/com/kuky/covplugin/Utils.java:43-54 | the text with its underscores dropped has no `_` and loses exactly one character per `_` |
| Names.CapitalizeWord | src/main/java/com/kuky/covplugin/Utils.java:50-54 | upperCaseFirst of a non-empty word without `_` succeeds and upper-cases only its first letter |
| Names.SplitLeavesNothing | src/main/java/com/kuky/covplugin/Utils.java:44 | `split("_")` leaves no segment exactly when the text is all underscores |
| Names.JoinKeptSegments | src/main/java/com/kuky/covplugin/Utils.java:44-47 | joining the upper-cased segments fails exactly when an empty segment precedes text, and otherwise gives the text with each `_` dropped and the letter after it upper-cased |
| Names.LayoutToBindingsDefined | src/main/java/com/kuky/covplugin/Utils.java:43-54 | layoutToBindings succeeds exactly when no empty segment precedes text; the result is then the capitalised text without `_` plus `Binding` |
| Names.BindingNameShape | src/main/java/com/kuky/covplugin/Utils.java:43-48 | a binding name has no `_`, ends in `Binding`, and is 7 longer than the layout name minus its underscores |
| Names.LeadingUnderscoreFails | src/main/java/com/kuky/covplugin/Utils.java:43-54 | a layout name `_x...` throws (the empty first segment) |
| Names.ClassNameRoundTrip | src/main/java/com/kuky/covplugin/Utils.java:18-54 | for a non-empty class name without `_`, layoutToBindings(transClassNameToLayoutName(s)) is s with its first letter upper-cased, plus `Binding` |
| Paths.ChildPath | src/main/java/com/kuky/covplugin/ui/CovActivityCreatorDialog.java:176 | `new File(dir, name)` starts with the directory path and ends with the name |
| Paths.SourceSetPrefix | src/main/java/com/kuky/covplugin/Utils.java:56-64 | there is no prefix exactly when the path contains neither `src/main/java` nor `src/main/kotlin`; a prefix is an absolute prefix of the path |
| Paths.ManifestAndLayoutAgree | src/main/java/com/kuky/covplugin/Utils.java:56-88 | the manifest and the layout directory are found for the same paths, and sit under the same module prefix of the path |
| Paths.ManifestBesideJavaRoot | src/main/java/com/kuky/covplugin/Utils.java:56-88 | below `src/main/java/` the manifest is `<prefix>src/main/AndroidManifest.xml` and the layouts are `<prefix>src/main/res/layout` |
| Paths.ManifestBesideKotlinRoot | src/main/java/com/kuky/covplugin/Utils.java:56-88 | the same for a path below `src/main/kotlin/` that has no `src/main/java` |
| Paths.ManifestOfUnsplitPath | src/main/java/com/kuky/covplugin/Utils.java:56-64 | for the source root itself (no `/` after `src/main/java`) split leaves the whole path as the prefix |
| Paths.FileHeader | src/main/java/com/kuky/covplugin/Utils.java:174-179 | the header is the part of the path before the first `src/main/java`, else before `src/main/kotlin`, else empty; it is always a prefix of the path |
| Paths.FileHeaderOfDescendant | src/main/java/com/kuky/covplugin/Utils.java:174-179 | every path below a directory inside a source set has that directory's header |
| Paths.FileToPackage | src/main/java/com/kuky/covplugin/Utils.java:167-172 | a path in no source set has the empty package |
| Paths.PackageBelowJavaRoot | src/main/java/com/kuky/covplugin/Utils.java:167-172 | the package of `<prefix>src/main/java/<pkg>` is `<pkg>` |
| Paths.PackageBelowKotlinRoot | src/main/java/com/kuky/covplugin/Utils.java:167-172 | the package of `<prefix>src/main/kotlin/<pkg>` is `<pkg>` |
| Paths.PackageOfSourceRootFails | src/main/java/com/kuky/covplugin/Utils.java:169 | fileToPackage of the source root itself throws (`split(..)[1]` out of range) |
| Paths.SrcFileIsSourceRoot | src/main/java/com/kuky/covplugin/Utils.java:205-208 | paths ending in `src/main/java` or `src/main/kotlin` are source roots; a path is one exactly when its last characters are one of the two roots in some letter case, so lower-casing it changes nothing |
| Packages.NonEmpty | src/main/java/com/kuky/covplugin/Utils.java:151-153 | the filtered pieces are all non-empty |
| Packages.PkgToListIsAncestorChain | src/main/java/com/kuky/covplugin/Utils.java:148-165 | without `/` the list is the package alone; otherwise element k joins the first k+1 non-empty segments, each element extends the previous one by `/` and a segment, and the last is the whole package |
| Packages.MergeChain | src/main/java/com/kuky/covplugin/Utils.java:104-106 | the loop appends the chain's non-empty packages the list does not yet hold, in order |
| Packages.AddNewProperties | src/main/java/com/kuky/covplugin/Utils.java:104-106 | merging keeps the list free of repeats and of `""`, and its members are the old ones plus the chain's non-empty ones |
| Packages.CandidatesFailForever | src/main/java/com/kuky/covplugin/Utils.java:101-106 | once one directory's fileToPackage throws, the whole stream throws |
| Packages.CandidatesProperties | src/main/java/com/kuky/covplugin/Utils.java:99-106 | the candidates are distinct and non-empty, and are exactly the non-empty members of the chains of the group's packages |
| Packages.RemoveFirstProperties | src/main/java/com/kuky/covplugin/Utils.java:109 | List.remove on a repeat-free list drops exactly that element |
| Packages.MoveToFrontProperties | src/main/java/com/kuky/covplugin/Utils.java:108-111 | moving the chosen package to the front keeps the members, the length and the absence of repeats, and puts it first when present |
| Packages.DottedProperties | src/main/java/com/kuky/covplugin/Utils.java:113 | every candidate has each `/` replaced by `.`, and none keeps a `/` |
| Packages.CollectPackages | src/main/java/com/kuky/covplugin/Utils.java:101-106 | the stream loop computes the candidate reference: the merged chains, or a throw when any directory's fileToPackage throws |
| Packages.FindMatchedPkgList | src/main/java/com/kuky/covplugin/Utils.java:93-117 | the method computes the reference result; a header with no group gives the empty list |
| Packages.MatchedPackagesProperties | src/main/java/com/kuky/covplugin/Utils.java:93-117 | the result is the dotted form of a candidate list that is distinct before `/` becomes `.`, has no empty entry, holds exactly the chain members of the module's package directories and has the chosen package first when it is one; the dotted result is distinct too when no package directory name holds a `.` |
| Packages.DottedDistinct | src/main/java/com/kuky/covplugin/Utils.java:113 | `replace("/", ".")` keeps a repeat-free list repeat-free when no element holds a `.` |
| Packages.DottedMayRepeat | src/main/java/com/kuky/covplugin/Utils.java:113 | for segments without `/`, the distinct packages `x/y` and `x.y` (such as `a/b` and `a.b`) both become `x.y`, so the combo box can list an entry twice |
| Packages.ChoosingSourceRootFails | src/main/java/com/kuky/covplugin/Utils.java:96-100 | choosing a source root itself throws (its fileToPackage) |
| ProjectTree.SrcRootsAreSourceDirs | src/main/java/com/kuky/covplugin/Utils.java:185-192 | every entry the walk collects is a directory whose path is a source root |
| ProjectTree.SrcRootsAreReachedRoots | src/main/java/com/kuky/covplugin/Utils.java:181-194 | the walk finds exactly the source root directories met by a pre-order walk that does not enter source roots, in that order |
| ProjectTree.SrcRootsFindsEvery | src/main/java/com/kuky/covplugin/Utils.java:185-192 | nothing is missed: a child directory that is a source root is found, and one that is not is entered, so every source root found below it is found too |
| ProjectTree.PackageDirsArePreOrderDirs | src/main/java/com/kuky/covplugin/Utils.java:196-203 | findPackageFiles collects, in pre-order, exactly the directories that are not source roots |
| ProjectTree.GroupAllKeys | src/main/java/com/kuky/covplugin/Utils.java:135-145 | grouping adds exactly the headers of the grouped directories as keys |
| ProjectTree.GroupAllList | src/main/java/com/kuky/covplugin/Utils.java:135-145 | each key's list is its old list followed by the grouped directories with that header, in order |
| ProjectTree.WithHeaderMembers | src/main/java/com/kuky/covplugin/Utils.java:136-143 | a directory is under a key exactly when it was grouped and has that header |
| ProjectTree.GroupedOnce | src/main/java/com/kuky/covplugin/Utils.java:135-145 | a grouped directory is under its own header and under no other key |
| ProjectTree.PackageScan.constructor | src/main/java/com/kuky/covplugin/Utils.java:122-123 | the scan starts from the three collections the caller passes |
| ProjectTree.PackageScan.FindAllSrcMainJavaFiles | src/main/java/com/kuky/covplugin/Utils.java:181-194 | appends the source roots below the directory: roots are taken and not entered, other directories are entered, files skipped |
| ProjectTree.PackageScan.FindPackageFiles | src/main/java/com/kuky/covplugin/Utils.java:196-203 | appends the non-root directories of the subtree in pre-order |
| ProjectTree.PackageScan.FindPackageFilesOfAll | src/main/java/com/kuky/covplugin/Utils.java:131-133 | appends the package directories of every source root, root by root |
| ProjectTree.PackageScan.GroupPackageFiles | src/main/java/com/kuky/covplugin/Utils.java:135-145 | the group becomes the old group with every package directory added under its header |
| ProjectTree.PackageScan.FindAndGroupPkgList | src/main/java/com/kuky/covplugin/Utils.java:122-146 | the three collections end as the walk, the package directories of the roots, and their grouping; a project without children adds no roots |
| Workspace.ResLayoutDir | src/main/java/com/kuky/covplugin/Utils.java:66-78 | no layout directory exactly when the path has no source set or the directory does not resolve; otherwise the layout file is created in it, or createFile throws because it exists |
| Workspace.GetResLayoutPath | src/main/java/com/kuky/covplugin/Utils.java:66-78 | the method decides as the reference and creates the empty layout file only when it returns the directory |
| Workspace.LayoutDirHasManifest | src/main/java/com/kuky/covplugin/Utils.java:56-88 | whenever a layout directory resolves, the manifest path exists too, in the same module |
| Workspace.LayoutFileIsNotManifest | src/main/java/com/kuky/covplugin/Utils.java:56-88 | the created layout file is never the manifest |
| Workspace.FileSystem.CreateFile | src/main/java/com/kuky/covplugin/ui/CovActivityCreatorDialog.java:162 | PsiDirectory.createFile creates an empty file, and throws and changes nothing when it exists |
| Workspace.FileSystem.Delete | src/main/java/com/kuky/covplugin/ui/CovActivityCreatorDialog.java:169-172 | File.delete removes that file only |
| Workspace.FileSystem.Write | src/main/java/com/kuky/covplugin/Utils.java:223-228 | writeContentToFile sets that file's content only |
| Workspace.FileSystem.Read | src/main/java/com/kuky/covplugin/Utils.java:210-218 | reading fails exactly for a missing file and otherwise gives its content |
| CreatorRules.NameIsNotBlank | src/main/java/com/kuky/covplugin/ui/CovActivityCreatorDialog.java:140-142 | a name matching `[A-Za-z0-9_-]+` is never blank |
| CreatorRules.CheckName | src/main/java/com/kuky/covplugin/ui/CovActivityCreatorDialog.java:116-126 | a required name is accepted exactly when it matches the pattern; OK is then enabled only if the other fields are filled; otherwise the given message |
| CreatorRules.CheckOptionalName | src/main/java/com/kuky/covplugin/ui/CovActivityCreatorDialog.java:104-114 | an optional name is accepted exactly when it is empty or matches; OK then follows the other fields |
| CreatorRules.Feedback.constructor | src/main/java/com/kuky/covplugin/ui/CovActivityCreatorDialog.java:66-69 | OK starts disabled; the label keeps the visibility and text the GUI form gives it |
| CreatorRules.Feedback.Show | src/main/java/com/kuky/covplugin/ui/CovActivityCreatorDialog.java:116-126 | acceptance hides the label and sets OK; rejection shows the message and disables OK |
| CreatorRules.RemoveEach | src/main/java/com/kuky/covplugin/ui/CovRecyclerAdapterCreatorDialog.java:128-130 | the chained `replace(t, "")` calls add no character |
| CreatorRules.LayoutStem | src/main/java/com/kuky/covplugin/ui/CovActivityCreatorDialog.java:129-135 | the translated, cleaned class name has no `__` |
| CreatorRules.WithKindShape | src/main/java/com/kuky/covplugin/ui/CovActivityCreatorDialog.java:137 | the kind is followed by exactly one `_` before the stem, and no `__` appears |
| CreatorRules.DefaultLayoutShape | src/main/java/com/kuky/covplugin/ui/CovActivityCreatorDialog.java:128-137 | a default layout name starts with `kind_`, has no `__`, always has a binding name, and passes the layout check when the class name has only name and `\s` characters |
| CreatorRules.BindingOfSimpleName | src/main/java/com/kuky/covplugin/Utils.java:43-54 | a name not starting with `_` and without `__` has a binding name |
| CreatorRules.InitialPackage | src/main/java/com/kuky/covplugin/ui/CovActivityCreatorDialog.java:58-60 | the package stays null exactly when there is no candidate, and is otherwise the first candidate |
| CreatorRules.BindingLayout | src/main/java/com/kuky/covplugin/ui/CovActivityCreatorDialog.java:248-263 | the layout text is an XML document ending in `</layout>` whose `android:layout_height` line, right after the width line, carries the given height |
| CreatorRules.BindingLayoutHeight | src/main/java/com/kuky/covplugin/ui/CovRecyclerAdapterCreatorDialog.java:198-212 | two heights give the same layout text exactly when they are equal, so the adapter's `wrap_content` layout differs from the dialogs' `match_parent` one |
| CreatorRules.WithHiltFlags | src/main/java/com/kuky/covplugin/ui/CovFragmentCreatorDialog.java:163-166 | Hilt's two imports and `@AndroidEntryPoint` are in the class text exactly when Hilt is checked |
| CreatorRules.InjectConstructorInserted | src/main/java/com/kuky/covplugin/ui/CovFragmentCreatorDialog.java:166 | with Hilt the class header is the plain one with ` @Inject constructor()` inserted after the class name |
| Manifest.InsertActivity | src/main/java/com/kuky/covplugin/ui/CovActivityCreatorDialog.java:191-197 | the update fails exactly when the manifest has no `</application>` |
| Manifest.ActivityElementShape | src/main/java/com/kuky/covplugin/ui/CovActivityCreatorDialog.java:194-196 | the element opens `<activity` and names `packageName.className` |
| Manifest.InsertActivityPlacement | src/main/java/com/kuky/covplugin/ui/CovActivityCreatorDialog.java:191-197 | the trimmed text ending in the element is followed by the trimmed rest, which starts at the first `</application>` |
| Manifest.UpdateManifestEffect | src/main/java/com/kuky/covplugin/ui/CovActivityCreatorDialog.java:189-197 | the step changes no file but the manifest, which ends with the updated text (unchanged without `</application>`) |
| Manifest.UpdateManifestFile | src/main/java/com/kuky/covplugin/ui/CovActivityCreatorDialog.java:189-197 | the method does the step on the file system |
| FileCreation.CreationPastClassFiles | src/main/java/com/kuky/covplugin/ui/CovActivityCreatorDialog.java:161-165 | unless createFile threw, both class files were new and were created empty |
| FileCreation.CreationRollsBack | src/main/java/com/kuky/covplugin/ui/CovActivityCreatorDialog.java:161-174 | createFiles rolls back exactly when the class files were new and no layout directory resolves; the files are then exactly as before |
| FileCreation.CreationThrows | src/main/java/com/kuky/covplugin/ui/CovActivityCreatorDialog.java:161-182 | it throws exactly when a class file exists, the layout file exists, or the class text cannot be built |
| FileCreation.AfterClassFilesCompleted | src/main/java/com/kuky/covplugin/ui/CovActivityCreatorDialog.java:167-197 | a completed run created the new layout file and wrote the texts |
| FileCreation.WrittenFilesDistinct | src/main/java/com/kuky/covplugin/Utils.java:56-88 | class file, layout file, ViewModel file and manifest are distinct files |
| FileCreation.WriteFilesContents | src/main/java/com/kuky/covplugin/ui/CovActivityCreatorDialog.java:181-197 | after the writes each file holds its text, the manifest its update, and every other file is unchanged |
| FileCreation.CreatedFilesKeepOthers | src/main/java/com/kuky/covplugin/ui/CovActivityCreatorDialog.java:161-167 | creating the class and layout files leaves every other file as it was |
| FileCreation.CreationCompletes | src/main/java/com/kuky/covplugin/ui/CovActivityCreatorDialog.java:156-205 | a completed run created new class, layout (and ViewModel) files holding their texts and updated an existing manifest |
| FileCreation.CreationTouchesOnlyItsFiles | src/main/java/com/kuky/covplugin/ui/CovActivityCreatorDialog.java:156-205 | whatever the outcome, no file other than the class, ViewModel, layout and manifest files changes |
| FileCreation.ThrownTouchesOnlyItsFiles | src/main/java/com/kuky/covplugin/ui/CovActivityCreatorDialog.java:161-182 | a run that throws leaves the manifest and every other file untouched |
| FileCreation.AfterClassFilesThrownKeeps | src/main/java/com/kuky/covplugin/ui/CovActivityCreatorDialog.java:167-182 | a throw after the class files changes no file but the layout file |
| FileCreation.CreationPastClassFilesAgain | src/main/java/com/kuky/covplugin/ui/CovActivityCreatorDialog.java:161-166 | with new class files the run continues from the created class files |
| FileCreation.CreationWithoutManifest | src/main/java/com/kuky/covplugin/ui/CovFragmentCreatorDialog.java:131-153 | without ViewModel and manifest entry a completed run wrote exactly the class and layout files, and nothing else changes |
| FileCreation.CreateFiles | src/main/java/com/kuky/covplugin/ui/CovActivityCreatorDialog.java:156-205 | the method ends, and leaves the files, as the reference says |
| FileCreation.FinishCreation | src/main/java/com/kuky/covplugin/ui/CovActivityCreatorDialog.java:167-205 | the part after the class files, as the reference says |
| ActivityCreator.DefaultLayoutNameShape | src/main/java/com/kuky/covplugin/ui/CovActivityCreatorDialog.java:128-137 | the default layout name starts with `activity_`, has no `__`, has a binding name, and passes checkLayoutName for a name-and-space class name |
| ActivityCreator.DefaultViewModelNameShape | src/main/java/com/kuky/covplugin/ui/CovActivityCreatorDialog.java:130 | the ViewModel name is the activity name without `Activity`, then `ViewModel` |
| ActivityCreator.ActivityViewModelsImportFlag | src/main/java/com/kuky/covplugin/ui/CovActivityCreatorDialog.java:222-227 | the `viewModels` import is present exactly when the ViewModel name is not blank |
| ActivityCreator.ActivityViewModelPropertyFlag | src/main/java/com/kuky/covplugin/ui/CovActivityCreatorDialog.java:239 | the ViewModel property is present exactly when the ViewModel name is not blank |
| ActivityCreator.ActivityHiltImportFlag | src/main/java/com/kuky/covplugin/ui/CovActivityCreatorDialog.java:233 | the Hilt import is present exactly when Hilt is checked |
| ActivityCreator.ActivityHiltAnnotationFlag | src/main/java/com/kuky/covplugin/ui/CovActivityCreatorDialog.java:235 | `@AndroidEntryPoint` is present exactly when Hilt is checked |
| ActivityCreator.ActivityRImportFlag | src/main/java/com/kuky/covplugin/ui/CovActivityCreatorDialog.java:230-231 | the `R` import is present exactly when the app package is not blank |
| ActivityCreator.ActivityBindingImportFlag | src/main/java/com/kuky/covplugin/ui/CovActivityCreatorDialog.java:230-232 | the binding import is present exactly when the app package is not blank |
| ActivityCreator.ActivityBindingUse | src/main/java/com/kuky/covplugin/ui/CovActivityCreatorDialog.java:237-240 | the class extends `BaseActivity<binding>` and returns the layout's id |
| ActivityCreator.ViewModelHiltFlags | src/main/java/com/kuky/covplugin/ui/CovActivityCreatorDialog.java:207-218 | `@HiltViewModel` and the Inject import are present exactly when Hilt is checked; the class extends ViewModel |
| ActivityCreator.ActivityCreatorDialog.constructor | src/main/java/com/kuky/covplugin/ui/CovActivityCreatorDialog.java:39-63 | the package is the first candidate, the combo box holds all, fields empty, OK disabled, the label as the GUI form gives it |
| ActivityCreator.ActivityCreatorDialog.SelectPackage | src/main/java/com/kuky/covplugin/ui/CovActivityCreatorDialog.java:71-75 | the selected item becomes the package |
| ActivityCreator.ActivityCreatorDialog.SetHilt | src/main/java/com/kuky/covplugin/ui/CovActivityCreatorDialog.java:221 | the Hilt check box state |
| ActivityCreator.ActivityCreatorDialog.CheckActivityName | src/main/java/com/kuky/covplugin/ui/CovActivityCreatorDialog.java:128-148 | fills in the default layout and ViewModel names; OK enabled and label hidden exactly when the name matches |
| ActivityCreator.ActivityCreatorDialog.CheckLayoutName | src/main/java/com/kuky/covplugin/ui/CovActivityCreatorDialog.java:116-126 | OK enabled exactly when the layout name matches and the activity name is not blank |
| ActivityCreator.ActivityCreatorDialog.CheckViewModelName | src/main/java/com/kuky/covplugin/ui/CovActivityCreatorDialog.java:104-114 | accepted when empty or matching; OK then needs both other names |
| ActivityCreator.ActivityCreatorDialog.CreateFiles | src/main/java/com/kuky/covplugin/ui/CovActivityCreatorDialog.java:156-205 | createFiles with the activity's plan: class, optional ViewModel, layout and manifest entry |
| FragmentCreator.DefaultLayoutNameShape | src/main/java/com/kuky/covplugin/ui/CovFragmentCreatorDialog.java:105-113 | the default layout name starts with `fragment_`, has no `__`, has a binding name, and passes checkLayoutName for a name-and-space class name |
| FragmentCreator.PackageThenImport | src/main/java/com/kuky/covplugin/ui/CovFragmentCreatorDialog.java:158-160 | the package line is followed at once by the Bundle import, with no blank line between |
| FragmentCreator.FragmentHiltFlags | src/main/java/com/kuky/covplugin/ui/CovFragmentCreatorDialog.java:163-166 | Hilt's imports and annotation are present exactly when Hilt is checked |
| FragmentCreator.FragmentBindingUse | src/main/java/com/kuky/covplugin/ui/CovFragmentCreatorDialog.java:166-168 | the class extends `BaseFragment<binding>` and returns the layout's id |
| FragmentCreator.FragmentCreatorDialog.constructor | src/main/java/com/kuky/covplugin/ui/CovFragmentCreatorDialog.java:37-60 | the package is the first candidate, fields empty, OK disabled, the label as the GUI form gives it |
| FragmentCreator.FragmentCreatorDialog.SelectPackage | src/main/java/com/kuky/covplugin/ui/CovFragmentCreatorDialog.java:68-72 | the selected item becomes the package |
| FragmentCreator.FragmentCreatorDialog.SetHilt | src/main/java/com/kuky/covplugin/ui/CovFragmentCreatorDialog.java:156 | the Hilt check box state |
| FragmentCreator.FragmentCreatorDialog.CheckFragmentName | src/main/java/com/kuky/covplugin/ui/CovFragmentCreatorDialog.java:105-123 | fills in the default layout name; OK enabled and label hidden exactly when the name matches |
| FragmentCreator.FragmentCreatorDialog.CheckLayoutName | src/main/java/com/kuky/covplugin/ui/CovFragmentCreatorDialog.java:93-103 | OK enabled exactly when the layout name matches and the fragment name is not blank |
| FragmentCreator.FragmentCreatorDialog.CreateFiles | src/main/java/com/kuky/covplugin/ui/CovFragmentCreatorDialog.java:131-153 | createFiles with the fragment's plan: class and layout only |
| DialogFragmentCreator.DefaultLayoutNameShape | src/main/java/com/kuky/covplugin/ui/CovDialogFragmentCreatorDialog.java:105-113 | the default layout name starts with `dialog_`, has no `__`, has a binding name, and passes checkLayoutName for a name-and-space class name |
| DialogFragmentCreator.DialogHiltFlags | src/main/java/com/kuky/covplugin/ui/CovDialogFragmentCreatorDialog.java:162-166 | Hilt's imports and annotation are present exactly when Hilt is checked |
| DialogFragmentCreator.DialogBindingUse | src/main/java/com/kuky/covplugin/ui/CovDialogFragmentCreatorDialog.java:166-168 | the class extends `BaseDialogFragment<binding>` and returns the layout's id |
| DialogFragmentCreator.DialogFragmentCreatorDialog.constructor | src/main/java/com/kuky/covplugin/ui/CovDialogFragmentCreatorDialog.java:37-60 | the package is the first candidate, fields empty, OK disabled, the label as the GUI form gives it |
| DialogFragmentCreator.DialogFragmentCreatorDialog.SelectPackage | src/main/java/com/kuky/covplugin/ui/CovDialogFragmentCreatorDialog.java:68-72 | the selected item becomes the package |
| DialogFragmentCreator.DialogFragmentCreatorDialog.SetHilt | src/main/java/com/kuky/covplugin/ui/CovDialogFragmentCreatorDialog.java:154 | the Hilt check box state |
| DialogFragmentCreator.DialogFragmentCreatorDialog.CheckDialogName | src/main/java/com/kuky/covplugin/ui/CovDialogFragmentCreatorDialog.java:105-123 | fills in the default layout name; OK enabled and label hidden exactly when the name matches |
| DialogFragmentCreator.DialogFragmentCreatorDialog.CheckLayoutName | src/main/java/com/kuky/covplugin/ui/CovDialogFragmentCreatorDialog.java:93-103 | OK enabled exactly when the layout name matches and the dialog name is not blank |
| DialogFragmentCreator.DialogFragmentCreatorDialog.CreateFiles | src/main/java/com/kuky/covplugin/ui/CovDialogFragmentCreatorDialog.java:131-151 | createFiles with the dialog's plan: class and layout only |
| AdapterCreator.DefaultLayoutNameShape | src/main/java/com/kuky/covplugin/ui/CovRecyclerAdapterCreatorDialog.java:126-134 | the default layout name starts with `recycler_`, ends with `_item`, and passes checkLayoutName for a name-and-space class name |
| AdapterCreator.ItemSuffixBinding | src/main/java/com/kuky/covplugin/ui/CovRecyclerAdapterCreatorDialog.java:134 | `w_item` has a binding name exactly when w does not end in `_` |
| AdapterCreator.DefaultLayoutNameBinding | src/main/java/com/kuky/covplugin/ui/CovRecyclerAdapterCreatorDialog.java:126-134 | the default layout name has a binding name exactly when the stem is non-empty and does not end in `_` (`My_Adapter` gives `recycler_my__item`, which has none) |
| AdapterCreator.AdapterHiltImportFlag | src/main/java/com/kuky/covplugin/ui/CovRecyclerAdapterCreatorDialog.java:184 | the Inject import is present exactly when Hilt is checked |
| AdapterCreator.AdapterHiltOnlyAddsInject | src/main/java/com/kuky/covplugin/ui/CovRecyclerAdapterCreatorDialog.java:184-186 | Hilt only inserts the Inject import and turns the header into the `@Inject constructor()` one |
| AdapterCreator.AdapterRImportFlag | src/main/java/com/kuky/covplugin/ui/CovRecyclerAdapterCreatorDialog.java:181-182 | the `R` import is present exactly when the app package is not blank |
| AdapterCreator.AdapterBindingImportFlag | src/main/java/com/kuky/covplugin/ui/CovRecyclerAdapterCreatorDialog.java:181-183 | the binding import is present exactly when the app package is not blank |
| AdapterCreator.AdapterBindingUse | src/main/java/com/kuky/covplugin/ui/CovRecyclerAdapterCreatorDialog.java:188-191 | the adapter returns the layout's id and binds through `viewDataBinding<binding>` |
| AdapterCreator.AdapterTypeArgument | src/main/java/com/kuky/covplugin/ui/CovRecyclerAdapterCreatorDialog.java:186-190 | the type argument of the header and of setVariable is the POJO, or `Any` when it is blank |
| AdapterCreator.AdapterCreatorDialog.constructor | src/main/java/com/kuky/covplugin/ui/CovRecyclerAdapterCreatorDialog.java:37-60 | the package is the first candidate, fields empty, OK disabled, the label as the GUI form gives it |
| AdapterCreator.AdapterCreatorDialog.SelectPackage | src/main/java/com/kuky/covplugin/ui/CovRecyclerAdapterCreatorDialog.java:68-72 | the selected item becomes the package |
| AdapterCreator.AdapterCreatorDialog.SetHilt | src/main/java/com/kuky/covplugin/ui/CovRecyclerAdapterCreatorDialog.java:175 | the Hilt check box state |
| AdapterCreator.AdapterCreatorDialog.CheckAdapterName | src/main/java/com/kuky/covplugin/ui/CovRecyclerAdapterCreatorDialog.java:125-144 | fills in the default layout name; OK enabled and label hidden exactly when the name matches |
| AdapterCreator.AdapterCreatorDialog.CheckLayoutName | src/main/java/com/kuky/covplugin/ui/CovRecyclerAdapterCreatorDialog.java:101-111 | OK enabled exactly when the layout name matches and the adapter name is not blank |
| AdapterCreator.AdapterCreatorDialog.CheckPojoName | src/main/java/com/kuky/covplugin/ui/CovRecyclerAdapterCreatorDialog.java:113-123 | accepted when empty or matching; OK then needs the adapter and layout names |
| AdapterCreator.AdapterCreatorDialog.CreateFiles | src/main/java/com/kuky/covplugin/ui/CovRecyclerAdapterCreatorDialog.java:152-172 | createFiles with the adapter's plan: class and `wrap_content` layout only |

## Left out

- The `actions/*Action.java` files are left out. They only open a dialog from the IDE's menu.
- Swing and IntelliJ UI wiring is left out: layout, colours, titles and the modal setting.
  - The document listeners become calls of the `Check*` methods with the new text.
  - Calls that `setText` makes to other validators are not chained. Each validator is modelled
    on its own.
- `runWriteAction`, the project refresh `vf.refresh` and the stack-trace printing are left out.
  They have no effect on the files the model tracks.
- The real file system is left out. `Workspace.FileSystem` is a map from absolute path to
  content, plus the set of directories the IDE resolves.
  - `readCompleteFileAsString` re-adds a line break after every line. The model reads a file's
    stored text as is.
  - I/O failures are not modelled, except that reading a missing manifest ends createFiles the
    way the caught IOException does.
- The dialogs' GUI forms are not part of this model. The error label's visibility and text
  before the first validator runs come from the form, so they enter the constructors as the
  parameters `formHintVisible` and `formHintText`. The text fields start empty.
- The dialog constructors receive the candidate list `pkgList` already computed by
  `Packages.FindMatchedPkgList`, and their contracts are stated for that list. Two paths of the
  Java constructors are outside the model. When `project.getBasePath()` is null, no scan runs
  and the combo box stays empty. When `findMatchedPkgList` throws, as it does in
  `Packages.ChoosingSourceRootFails`, no dialog is built at all.
- `Utils.appPackage` is not part of this model. Its value enters as the parameter `appPkg`.
- Case mapping covers ASCII letters only. `toLowerCase`, `Character.toUpperCase` and
  `isUpper` leave every other character unchanged, so Unicode case mapping of non-ASCII
  letters is not modelled. `\s` and `StringUtil.isBlank` use their own ASCII whitespace sets.
- `File.listFiles` order is not modelled; a directory's children come in the order the `Entry`
  value lists them. `null` children (an I/O error) are the same as none.
- Each dialog's generated texts are built up front in a `FileCreation.Plan`. This is sound
  because they depend only on the dialog's fields and `appPkg`, never on the files createFiles
  changes.
- `Utils.findMatchedPkgList` takes the chosen `PsiDirectory`; the model takes its path.
