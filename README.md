# A Dafny model of the buildship Android classpath actions

The plugin adds Eclipse classpath entries for an Android project, so that an
Eclipse-based Java language server can resolve its sources, the generated R
and data-binding classes and the Android SDK jar. Each action inspects the
Gradle project and appends entries to the mutable `.classpath` model
(`classpath.getEntries().add(...)`). A separate handler registers dependency
configurations as Eclipse "plus configurations".

This model captures that state as a snapshot:

- **Filesystem.** A set of existing paths and a set of directories. A path
  is a sequence of name segments. `listFiles` maps a directory to its child
  names in listing order.
- **Reflection.** Each reflective call on the `android` extension, and the
  `android` property lookup itself, is an `Invocation`. It either returned a
  value or threw. A returned value is told apart only as far as the source's
  `instanceof` tests go: `SetValue`, `ListValue` or `OtherValue`, holding
  `FileElement`s and `OtherObject`s.
- **Eclipse model.** `EclipseModel.Classpath` is a class whose `entries`
  sequence only ever grows. `EclipseModel.EclipseClasspath` holds the plus
  configurations.
- **Configurations.** `GradleProject.Configuration` is a class whose
  `dependencies` and `canBeResolved` fields the handler changes in place.

Each action is a class holding its project, with an `Execute` method. The
method appends `old(entries) + Contribution(project)`, where `Contribution`
is a function of the snapshot. The lemmas state what the source promises
about those functions: ordering, at most one entry, filtering, the fault
paths, and that earlier entries are never touched.

A classpath entry's path is a `Paths.Location`: project-relative or
absolute segments. The two output folders `DEFAULT_OUTPUT_MAIN` and `DEFAULT_OUTPUT_TEST` are
the two distinct constructors of `OutputPath`.

## Behaviour worth noting

- **Boot classpath filter.** The filter tests whether the whole absolute
  path ends with the string `android.jar`, so `xandroid.jar` passes too
  (`AddBootClasspath.SuffixSemantics`).
- **Duplicates.** No action removes or checks for duplicates. Running an
  action on a classpath that already holds an entry appends it again.
- **Faults.** A missing source set makes `getByName` throw, and the sets
  after it are skipped (`AddSourceFolders.MissingSourceSetStops`). The
  `android` property lookup sits outside the `try` in two actions, so its
  exception escapes `execute`. Both actions report this through the
  out-parameter `escaped`.
- **Relative and absolute entries.** Each entry records whether its path is
  relative to the project directory or absolute (`Paths.Location`). Source
  folders are relativised against the project directory. A Java directory
  outside it keeps its absolute path, as `URI.relativize` returns such a
  URI unchanged. The R jar, the R sources and the data-binding folder are
  relative. Boot classpath libraries and the SDK library are absolute.

## Model

| member | source | states |
|---|---|---|
| Paths.Relativize | plugin/src/main/java/org/eclipse/jdt/ls/android/AddSourceFoldersAction.java:53-56 | a path under the base becomes a project-relative location, the base followed by it being the path; any other path comes back as an absolute location holding it unchanged |
| Paths.RelativizeInjective | plugin/src/main/java/org/eclipse/jdt/ls/android/AddSourceFoldersAction.java:53-56 | two distinct paths never relativise to the same location |
| Paths.EndsWithFileName | plugin/src/main/java/org/eclipse/jdt/ls/android/AddRClasspathAction.java:30 | for a suffix without '/', an absolute path ends with it exactly when its last segment does |
| EclipseModel.Classpath.Add | plugin/src/main/java/org/eclipse/jdt/ls/android/AddBootClasspathAction.java:35 | `getEntries().add` puts the entry at the end and keeps every earlier entry |
| EclipseModel.EclipseClasspath.AddAll | plugin/src/main/java/org/eclipse/jdt/ls/android/AddPlusConfigurationHandler.java:32 | the configurations are appended after the existing plus configurations, which stay |
| AddSourceFolders.AddSourceFoldersAction.Execute | plugin/src/main/java/org/eclipse/jdt/ls/android/AddSourceFoldersAction.java:24-36 | appends exactly the source-set contribution after the existing entries; a missing `android` property escapes and appends nothing |
| AddSourceFolders.AddSourceFoldersAction.AddSourceFolder | plugin/src/main/java/org/eclipse/jdt/ls/android/AddSourceFoldersAction.java:38-65 | throws exactly when the source set is missing; otherwise appends the folders of its existing directories, in iteration order |
| AddSourceFolders.DirectoryEntriesAppend | plugin/src/main/java/org/eclipse/jdt/ls/android/AddSourceFoldersAction.java:47-63 | the folders keep the directories' iteration order |
| AddSourceFolders.DirectoryEntriesSingle | plugin/src/main/java/org/eclipse/jdt/ls/android/AddSourceFoldersAction.java:48-61 | one directory yields one folder if it is an existing File, none if it is missing or not a File |
| AddSourceFolders.DirectoryEntriesMembership | plugin/src/main/java/org/eclipse/jdt/ls/android/AddSourceFoldersAction.java:47-63 | an entry is appended exactly when it is the relativised folder of some existing File directory |
| AddSourceFolders.DirectoryEntriesCount | plugin/src/main/java/org/eclipse/jdt/ls/android/AddSourceFoldersAction.java:47-63 | the number of folders equals the number of existing File directories |
| AddSourceFolders.DirectoryEntries | plugin/src/main/java/org/eclipse/jdt/ls/android/AddSourceFoldersAction.java:47-63 | at most one folder per directory; every folder has the requested output, and the attribute map is `test=true` exactly for the test output and empty otherwise |
| AddSourceFolders.SourceSetEntries | plugin/src/main/java/org/eclipse/jdt/ls/android/AddSourceFoldersAction.java:40-47 | a set whose `getJavaDirectories` throws or returns no Set contributes nothing; every folder has the set's output and is marked `test` exactly for the test output |
| AddSourceFolders.FolderPathUnderProject | plugin/src/main/java/org/eclipse/jdt/ls/android/AddSourceFoldersAction.java:53-57 | a directory under the project directory gets its path below the project directory, as a relative path |
| AddSourceFolders.FolderPathOutsideProject | plugin/src/main/java/org/eclipse/jdt/ls/android/AddSourceFoldersAction.java:53-57 | a directory outside the project directory keeps its absolute path |
| AddSourceFolders.FolderForInjective | plugin/src/main/java/org/eclipse/jdt/ls/android/AddSourceFoldersAction.java:53-57 | two distinct directories never give the same folder, inside or outside the project directory |
| AddSourceFolders.SourceSetOrder | plugin/src/main/java/org/eclipse/jdt/ls/android/AddSourceFoldersAction.java:29-31 | main's folders (main output) come first, then test's, then androidTest's (both test output) |
| AddSourceFolders.MissingSourceSetStops | plugin/src/main/java/org/eclipse/jdt/ls/android/AddSourceFoldersAction.java:29-39 | a missing source set ends the sequence; the folders of the sets before it stay |
| AddSourceFolders.JavaDirectoriesFaultSkipsOneSet | plugin/src/main/java/org/eclipse/jdt/ls/android/AddSourceFoldersAction.java:40-46 | a set whose `getJavaDirectories` throws or returns no Set contributes nothing, and the other two sets still contribute, whichever of the three is faulty |
| AddSourceFolders.Contribution | plugin/src/main/java/org/eclipse/jdt/ls/android/AddSourceFoldersAction.java:24-36 | only source folders are appended, and something is appended only if `getSourceSets` returned a named container holding `main`; a throwing `getSourceSets` or another result appends nothing |
| AddSourceFolders.MainFoldersPrecedeTestFolders | plugin/src/main/java/org/eclipse/jdt/ls/android/AddSourceFoldersAction.java:29-31 | every entry is a source folder with `test` set exactly on test-output folders, and no main-output folder follows a test-output one |
| AddRClasspath.Contribution | plugin/src/main/java/org/eclipse/jdt/ls/android/AddRClasspathAction.java:25-54 | at most one R-related entry per execution, and its path is relative to the project directory |
| AddRClasspath.AddRClasspathAction.Execute | plugin/src/main/java/org/eclipse/jdt/ls/android/AddRClasspathAction.java:25-54 | appends exactly the R contribution after the existing entries, returning at the first jar found |
| AddRClasspath.CandidateJar | plugin/src/main/java/org/eclipse/jdt/ls/android/AddRClasspathAction.java:30-45 | only `r_class_jar` intermediates offer a jar, and the offered jar exists and is one of the two layouts; `debug/R.jar` wins whenever it exists; `debug/generateDebugRFile/R.jar` is taken only when `debug/R.jar` is missing |
| AddRClasspath.RClassJarByName | plugin/src/main/java/org/eclipse/jdt/ls/android/AddRClasspathAction.java:30 | an intermediate is a candidate exactly when its name ends with `r_class_jar` |
| AddRClasspath.FirstJar | plugin/src/main/java/org/eclipse/jdt/ls/android/AddRClasspathAction.java:29-47 | a jar found by the loop exists and lies below the intermediates folder |
| AddRClasspath.FoundJar | plugin/src/main/java/org/eclipse/jdt/ls/android/AddRClasspathAction.java:26-47 | a jar is found only when the intermediates folder exists and is a directory, and it is the jar offered by one of its listed children |
| AddRClasspath.FirstJarIsFirst | plugin/src/main/java/org/eclipse/jdt/ls/android/AddRClasspathAction.java:29-36 | the jar found is the jar of child `k`, and no child before `k` offers one (both directions) |
| AddRClasspath.FirstJarNone | plugin/src/main/java/org/eclipse/jdt/ls/android/AddRClasspathAction.java:29-47 | no jar is found exactly when no listed child offers one |
| AddRClasspath.JarLibraryPath | plugin/src/main/java/org/eclipse/jdt/ls/android/AddRClasspathAction.java:31-43 | a library entry's path is `build/intermediates/<name>/debug[/generateDebugRFile]/R.jar` relative to the project directory, for a listed `r_class_jar` child, and that jar exists |
| AddRClasspath.FallbackOnlyWithoutJar | plugin/src/main/java/org/eclipse/jdt/ls/android/AddRClasspathAction.java:49-53 | the `not_namespaced_r_class_sources` folder (main output, no attributes) is appended exactly when no jar was found and the folder exists; otherwise nothing is appended when no jar is found |
| AddRClasspath.MissingIntermediatesTriesFallback | plugin/src/main/java/org/eclipse/jdt/ls/android/AddRClasspathAction.java:28-53 | a missing or non-directory intermediates folder leads straight to the fallback |
| AddBootClasspath.AddBootClasspathAction.Execute | plugin/src/main/java/org/eclipse/jdt/ls/android/AddBootClasspathAction.java:24-42 | appends exactly the boot classpath contribution after the existing entries; a missing `android` property escapes and appends nothing |
| AddBootClasspath.BootEntries | plugin/src/main/java/org/eclipse/jdt/ls/android/AddBootClasspathAction.java:29-37 | at most one library per element, each at the absolute path of a file passing the `android.jar` filter |
| AddBootClasspath.BootEntriesAppend | plugin/src/main/java/org/eclipse/jdt/ls/android/AddBootClasspathAction.java:29-37 | the libraries keep the boot classpath's list order |
| AddBootClasspath.BootEntriesSingle | plugin/src/main/java/org/eclipse/jdt/ls/android/AddBootClasspathAction.java:30-35 | one element yields a Library exactly when it is a File whose absolute path ends with `android.jar` |
| AddBootClasspath.BootEntriesMembership | plugin/src/main/java/org/eclipse/jdt/ls/android/AddBootClasspathAction.java:29-37 | `Library(p)` is appended exactly when `p` is the absolute path of a matching File element |
| AddBootClasspath.BootEntriesCount | plugin/src/main/java/org/eclipse/jdt/ls/android/AddBootClasspathAction.java:29-37 | the number of libraries equals the number of matching elements |
| AddBootClasspath.AndroidJarByFileName | plugin/src/main/java/org/eclipse/jdt/ls/android/AddBootClasspathAction.java:31 | the suffix test depends on the file name only |
| AddBootClasspath.SuffixSemantics | plugin/src/main/java/org/eclipse/jdt/ls/android/AddBootClasspathAction.java:31-35 | `xandroid.jar` matches; of `android.jar` and `optional/org.apache.http.legacy.jar`, only `android.jar` yields a Library |
| AddBootClasspath.Contribution | plugin/src/main/java/org/eclipse/jdt/ls/android/AddBootClasspathAction.java:27-41 | only absolute libraries passing the filter are appended, and something is appended only if `getBootClasspath` returned a List; a throwing call or another result appends nothing |
| AddDataBindingClasspath.Contribution | plugin/src/main/java/org/eclipse/jdt/ls/android/AddDataBindingClasspathAction.java:25-29 | exactly one entry if the folder exists, none otherwise: a main-output source folder without attributes at `build/generated/data_binding_base_class_source_out/debug/out` |
| AddDataBindingClasspath.AddDataBindingClasspathAction.Execute | plugin/src/main/java/org/eclipse/jdt/ls/android/AddDataBindingClasspathAction.java:24-30 | appends exactly that contribution; an absent folder leaves the classpath unchanged |
| AndroidSdkLibraryDependencies.AndroidSdkEntry | plugin/src/main/java/org/eclipse/jdt/ls/android/AndroidSdkLibraryDependenciesAction.java:20-26 | the entry is a Library at an absolute path ending in `platforms/android-28/android.jar` |
| AndroidSdkLibraryDependencies.AndroidSdkLibraryDependenciesAction.Execute | plugin/src/main/java/org/eclipse/jdt/ls/android/AndroidSdkLibraryDependenciesAction.java:16-18 | every execution appends exactly the SDK library as the new last entry and keeps the earlier ones |
| AddPlusConfigurationHandler.SelectedNames | plugin/src/main/java/org/eclipse/jdt/ls/android/AddPlusConfigurationHandler.java:17-31 | the names added are exactly those of `implementation`, `debugAndroidTestCompileClasspath` and `debugUnitTestCompileClasspath` that exist, in that order, and no other |
| AddPlusConfigurationHandler.SelectedConfigurations | plugin/src/main/java/org/eclipse/jdt/ls/android/AddPlusConfigurationHandler.java:27-32 | the configurations added are the container's configurations under the selected names, in order |
| AddPlusConfigurationHandler.SelectionExample | plugin/src/main/java/org/eclipse/jdt/ls/android/AddPlusConfigurationHandler.java:23-31 | with the three names and an unrelated one present, exactly the three are selected, in order |
| AddPlusConfigurationHandler.AddPlusConfiguration | plugin/src/main/java/org/eclipse/jdt/ls/android/AddPlusConfigurationHandler.java:19-33 | the selected configurations are appended to the existing plus configurations; the implementation configuration, if present, is resolvable and its dependencies are rewritten |
| AddPlusConfigurationHandler.ResolveImplementationConfiguration | plugin/src/main/java/org/eclipse/jdt/ls/android/AddPlusConfigurationHandler.java:35-50 | null exactly when there is no implementation configuration, and then nothing is changed; otherwise that configuration, made resolvable, with its dependencies rewritten |
| AddPlusConfigurationHandler.DefaultTarget | plugin/src/main/java/org/eclipse/jdt/ls/android/AddPlusConfigurationHandler.java:40-44 | a project dependency without a target gets `default`; it stays a project dependency with the same path; every other dependency stays as it was |
| AddPlusConfigurationHandler.DefaultTargetsPointwise | plugin/src/main/java/org/eclipse/jdt/ls/android/AddPlusConfigurationHandler.java:39-45 | a project dependency with a null target gets the target `default`; a project dependency with a target, and every other dependency, stays as it was |
| AddPlusConfigurationHandler.WithDefaultTargets | plugin/src/main/java/org/eclipse/jdt/ls/android/AddPlusConfigurationHandler.java:39-45 | as many dependencies as before, and afterwards no project dependency has a null target |
| AddPlusConfigurationHandler.DefaultTargetsIdempotent | plugin/src/main/java/org/eclipse/jdt/ls/android/AddPlusConfigurationHandler.java:39-45 | rewriting the dependencies a second time changes nothing |

## Left out

- Reflection as such (`getClass().getMethod(...).invoke(...)`, `project.property`, the `instanceof` tests on Gradle types). Each call is an `Invocation` that returned a value or threw. A null `android` property is modelled as an extension whose every call throws.
- Filesystem I/O (`exists`, `isDirectory`, `listFiles`). It is a snapshot. A `listFiles` that returns null, which in the source would end `execute` with a `NullPointerException`, is not modelled.
- URI details. `toURI` adds a trailing '/' to a directory, and Windows uses '\' separators and drive letters. Paths are POSIX segment sequences, and `AbsolutePath` renders them with '/'.
- A boot classpath `File` given by a relative path, which `getAbsolutePath` resolves against the working directory. File elements are taken to be absolute.
- Set iteration without duplicates. A `Set` is a sequence in iteration order, and a sequence may repeat an element, so the model is more general here.
- `FileReferenceFactory`, the other fields of `SourceFolder`/`Library`, and how the `.classpath` file is written. Entries keep only the path, the output and the attributes the code sets.
- Dependency resolution itself, and whether `setCanBeResolved` is refused on an already-resolved configuration.
- Dependencies shared between configurations. Dependencies are values inside their configuration, so aliasing between configurations is not modelled.
- The plugin class that registers the actions, and the string values of `DEFAULT_OUTPUT_MAIN` and `DEFAULT_OUTPUT_TEST`. Neither is shown. Running the actions in sequence, and running them twice, is therefore not modelled. Each `Contribution` is a function of the snapshot, so an unchanged snapshot always yields the same entries.
- AndroidSdkEntry: its contract names the Library kind, that the path is absolute, and its last three segments (`platforms`, `android-28`, `android.jar`), not the developer-machine prefix. The full path is the constant `SDK_PLATFORM_JAR`, split at '/'.
