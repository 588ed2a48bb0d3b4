/** `AddSourceFoldersAction`: one source folder per existing Java directory
    of the `main`, `test` and `androidTest` source sets, relativised against
    the project directory; test folders carry the attribute `test=true`. */
module AddSourceFolders {
  import opened Paths
  import opened GradleProject
  import opened EclipseModel

  /** The source folder made for the existing directory `dir`. */
  function FolderFor(projectDir: Path, dir: Path, output: OutputPath): Entry
  {
    SourceFolder(Relativize(projectDir, dir), output,
                 if output == DefaultOutputTest then map["test" := "true"] else map[])
  }

  /** An element that yields a folder: a `File` that exists. */
  predicate IsExistingDirectory(element: Element, fs: FileSystem)
  {
    element.FileElement? && fs.Exists(element.path)
  }

  /** The folders `addSourceFolder` appends for the directories `elements`,
      in their iteration order: at most one per directory, each with the
      output it was made for and the attribute `test=true` exactly when that
      output is the test output. */
  function DirectoryEntries(elements: seq<Element>, projectDir: Path, fs: FileSystem, output: OutputPath): (r: seq<Entry>)
    ensures |r| <= |elements|
    ensures forall e | e in r ::
              e.SourceFolder? && e.output == output &&
              e.entryAttributes == (if output == DefaultOutputTest then map["test" := "true"] else map[])
  {
    if elements == [] then []
    else
      var last := elements[|elements| - 1];
      DirectoryEntries(elements[..|elements| - 1], projectDir, fs, output) +
      (if IsExistingDirectory(last, fs) then [FolderFor(projectDir, last.path, output)] else [])
  }

  /** What one source set contributes: nothing unless `getJavaDirectories`
      returned a `Set`, and only folders with the given output, marked
      `test` exactly when that is the test output. */
  function SourceSetEntries(sourceSet: SourceSet, projectDir: Path, fs: FileSystem, output: OutputPath): (r: seq<Entry>)
    ensures !(sourceSet.javaDirectories.Returned? && sourceSet.javaDirectories.value.SetValue?) ==> r == []
    ensures forall e | e in r ::
              e.SourceFolder? && e.output == output && ("test" in e.entryAttributes <==> output == DefaultOutputTest)
  {
    match sourceSet.javaDirectories
    case Returned(SetValue(elements)) => DirectoryEntries(elements, projectDir, fs, output)
    case _ => []
  }

  /** The three `addSourceFolder` calls in turn; a missing source set makes
      `getByName` throw, which ends the sequence. */
  function SourceSetsEntries(sets: map<string, SourceSet>, projectDir: Path, fs: FileSystem): seq<Entry>
  {
    if "main" !in sets then []
    else
      SourceSetEntries(sets["main"], projectDir, fs, DefaultOutputMain) +
      if "test" !in sets then []
      else
        SourceSetEntries(sets["test"], projectDir, fs, DefaultOutputTest) +
        if "androidTest" !in sets then []
        else SourceSetEntries(sets["androidTest"], projectDir, fs, DefaultOutputTest)
  }

  /** Everything `execute` appends for `project`: source folders only, and
      nothing at all unless `getSourceSets` returned a named container that
      holds a `main` source set. */
  function Contribution(project: Project): (r: seq<Entry>)
    ensures forall e | e in r :: e.SourceFolder?
    ensures r != [] ==>
              project.android.Returned? && project.android.value.sourceSets.Returned? &&
              project.android.value.sourceSets.value.NamedContainer? &&
              "main" in project.android.value.sourceSets.value.byName
  {
    match project.android
    case Threw => []
    case Returned(android) =>
      match android.sourceSets
      case Returned(NamedContainer(sets)) => SourceSetsEntries(sets, project.projectDir, project.fs)
      case _ => []
  }

  /** The indices of the elements that yield a folder. */
  function ExistingIndices(elements: seq<Element>, fs: FileSystem): set<nat>
  {
    set i: nat | i < |elements| && IsExistingDirectory(elements[i], fs)
  }

  class AddSourceFoldersAction {
    const project: Project

    constructor (project: Project)
      ensures this.project == project
    {
      this.project := project;
    }

    /** Appends `Contribution(project)`; when the `android` property itself
        is missing, the exception escapes (`escaped`) and nothing is added. */
    method Execute(classpath: Classpath) returns (escaped: bool)
      modifies classpath
      ensures escaped <==> project.android.Threw?
      ensures classpath.entries == old(classpath.entries) + Contribution(project)
    {
      if project.android.Threw? {
        return true;
      }
      escaped := false;
      var sourceSets := project.android.value.sourceSets;
      if sourceSets.Returned? && sourceSets.value.NamedContainer? {
        var sets := sourceSets.value.byName;
        var thrown := AddSourceFolder(classpath, sets, "main", DefaultOutputMain);
        if !thrown {
          thrown := AddSourceFolder(classpath, sets, "test", DefaultOutputTest);
          if !thrown {
            thrown := AddSourceFolder(classpath, sets, "androidTest", DefaultOutputTest);
          }
        }
      }
    }

    /** Appends the folders of source set `sourceSetName`; `thrown` reports
        that `getByName` found no such source set. */
    method AddSourceFolder(classpath: Classpath, sourceSets: map<string, SourceSet>, sourceSetName: string,
                           outputPath: OutputPath) returns (thrown: bool)
      modifies classpath
      ensures thrown <==> sourceSetName !in sourceSets
      ensures classpath.entries == old(classpath.entries) +
        (if thrown then [] else SourceSetEntries(sourceSets[sourceSetName], project.projectDir, project.fs, outputPath))
    {
      if sourceSetName !in sourceSets {
        return true;
      }
      thrown := false;
      var javaDirectories := sourceSets[sourceSetName].javaDirectories;
      if javaDirectories.Returned? && javaDirectories.value.SetValue? {
        var elements := javaDirectories.value.elements;
        var i := 0;
        while i < |elements|
          invariant 0 <= i <= |elements|
          invariant classpath.entries ==
            old(classpath.entries) + DirectoryEntries(elements[..i], project.projectDir, project.fs, outputPath)
        {
          var javaDirectory := elements[i];
          if javaDirectory.FileElement? && project.fs.Exists(javaDirectory.path) {
            var relative := Relativize(project.projectDir, javaDirectory.path);
            var f := SourceFolder(relative, outputPath, map[]);
            if outputPath == DefaultOutputTest {
              f := f.(entryAttributes := f.entryAttributes["test" := "true"]);
            }
            classpath.Add(f);
          }
          assert elements[..i + 1][..i] == elements[..i];
          i := i + 1;
        }
        assert elements[..|elements|] == elements;
      }
    }
  }

  /** Folders of consecutive runs of directories come out in that order. */
  lemma {:induction false} DirectoryEntriesAppend(a: seq<Element>, b: seq<Element>, projectDir: Path, fs: FileSystem,
                                                  output: OutputPath)
    ensures DirectoryEntries(a + b, projectDir, fs, output) ==
            DirectoryEntries(a, projectDir, fs, output) + DirectoryEntries(b, projectDir, fs, output)
    decreases |b|
  {
    if b == [] {
      assert a + b == a;
    } else {
      var b' := b[..|b| - 1];
      assert (a + b)[..|a + b| - 1] == a + b';
      DirectoryEntriesAppend(a, b', projectDir, fs, output);
    }
  }

  /** A single directory yields one folder if it is an existing `File` and
      none otherwise. */
  lemma DirectoryEntriesSingle(element: Element, projectDir: Path, fs: FileSystem, output: OutputPath)
    ensures DirectoryEntries([element], projectDir, fs, output) ==
            if IsExistingDirectory(element, fs) then [FolderFor(projectDir, element.path, output)] else []
  {
    assert [element][..0] == [];
  }

  /** An entry is appended exactly when it is the folder of some existing
      directory among `elements`. */
  lemma {:induction false} DirectoryEntriesMembership(elements: seq<Element>, projectDir: Path, fs: FileSystem,
                                                      output: OutputPath, e: Entry)
    ensures e in DirectoryEntries(elements, projectDir, fs, output) <==>
            exists i :: 0 <= i < |elements| && IsExistingDirectory(elements[i], fs) &&
                        e == FolderFor(projectDir, elements[i].path, output)
  {
    if elements != [] {
      var init := elements[..|elements| - 1];
      DirectoryEntriesMembership(init, projectDir, fs, output, e);
      if e in DirectoryEntries(elements, projectDir, fs, output) && e !in DirectoryEntries(init, projectDir, fs, output) {
        var last := elements[|elements| - 1];
        assert IsExistingDirectory(last, fs) && e == FolderFor(projectDir, last.path, output);
      }
      forall i | 0 <= i < |init|
        ensures elements[i] == init[i]
      {
      }
    }
  }

  /** One folder per existing directory: as many entries as there are
      existing `File` elements. */
  lemma {:induction false} DirectoryEntriesCount(elements: seq<Element>, projectDir: Path, fs: FileSystem,
                                                 output: OutputPath)
    ensures |DirectoryEntries(elements, projectDir, fs, output)| == |ExistingIndices(elements, fs)|
  {
    if elements == [] {
      assert ExistingIndices(elements, fs) == {};
    } else {
      var n := |elements| - 1;
      var init := elements[..n];
      DirectoryEntriesCount(init, projectDir, fs, output);
      var last: set<nat> := if IsExistingDirectory(elements[n], fs) then {n} else {};
      assert ExistingIndices(elements, fs) == ExistingIndices(init, fs) + last;
      assert n !in ExistingIndices(init, fs);
    }
  }

  /** The folder of an existing directory under the project directory is
      its path below the project directory. */
  lemma FolderPathUnderProject(projectDir: Path, rest: Path, output: OutputPath)
    ensures FolderFor(projectDir, projectDir + rest, output).path == ProjectRelative(rest)
  {
    assert (projectDir + rest)[|projectDir|..] == rest;
  }

  /** A directory outside the project directory keeps its absolute path. */
  lemma FolderPathOutsideProject(projectDir: Path, dir: Path, output: OutputPath)
    requires !(projectDir <= dir)
    ensures FolderFor(projectDir, dir, output).path == Absolute(dir)
  {
  }

  /** Two distinct directories never give the same folder, whether they lie
      inside the project directory or outside it. */
  lemma FolderForInjective(projectDir: Path, a: Path, b: Path, output: OutputPath)
    ensures FolderFor(projectDir, a, output) == FolderFor(projectDir, b, output) ==> a == b
  {
    RelativizeInjective(projectDir, a, b);
  }

  /** With all three source sets present, main's folders come first, then
      test's, then androidTest's. */
  lemma SourceSetOrder(sets: map<string, SourceSet>, projectDir: Path, fs: FileSystem)
    requires "main" in sets && "test" in sets && "androidTest" in sets
    ensures SourceSetsEntries(sets, projectDir, fs) ==
            SourceSetEntries(sets["main"], projectDir, fs, DefaultOutputMain) +
            SourceSetEntries(sets["test"], projectDir, fs, DefaultOutputTest) +
            SourceSetEntries(sets["androidTest"], projectDir, fs, DefaultOutputTest)
  {
  }

  /** A missing source set stops the sequence: nothing from the sets after
      it, and what came before stays. */
  lemma MissingSourceSetStops(sets: map<string, SourceSet>, projectDir: Path, fs: FileSystem)
    ensures "main" !in sets ==> SourceSetsEntries(sets, projectDir, fs) == []
    ensures "main" in sets && "test" !in sets ==>
              SourceSetsEntries(sets, projectDir, fs) == SourceSetEntries(sets["main"], projectDir, fs, DefaultOutputMain)
    ensures "main" in sets && "test" in sets && "androidTest" !in sets ==>
              SourceSetsEntries(sets, projectDir, fs) ==
              SourceSetEntries(sets["main"], projectDir, fs, DefaultOutputMain) +
              SourceSetEntries(sets["test"], projectDir, fs, DefaultOutputTest)
  {
  }

  /** A source set whose `getJavaDirectories` throws, or returns something
      that is not a `Set`, contributes nothing; the sets after it are still
      processed. */
  lemma JavaDirectoriesFaultSkipsOneSet(sets: map<string, SourceSet>, projectDir: Path, fs: FileSystem, name: string)
    requires "main" in sets && "test" in sets && "androidTest" in sets
    requires name in sets && !(sets[name].javaDirectories.Returned? && sets[name].javaDirectories.value.SetValue?)
    ensures SourceSetEntries(sets[name], projectDir, fs, DefaultOutputMain) == []
    ensures SourceSetEntries(sets[name], projectDir, fs, DefaultOutputTest) == []
    ensures name == "main" ==>
              SourceSetsEntries(sets, projectDir, fs) ==
              SourceSetEntries(sets["test"], projectDir, fs, DefaultOutputTest) +
              SourceSetEntries(sets["androidTest"], projectDir, fs, DefaultOutputTest)
    ensures name == "test" ==>
              SourceSetsEntries(sets, projectDir, fs) ==
              SourceSetEntries(sets["main"], projectDir, fs, DefaultOutputMain) +
              SourceSetEntries(sets["androidTest"], projectDir, fs, DefaultOutputTest)
    ensures name == "androidTest" ==>
              SourceSetsEntries(sets, projectDir, fs) ==
              SourceSetEntries(sets["main"], projectDir, fs, DefaultOutputMain) +
              SourceSetEntries(sets["test"], projectDir, fs, DefaultOutputTest)
  {
  }

  /** Main-output folders come first and test-output folders after them,
      each with the attribute `test=true` exactly when it is a test folder. */
  lemma MainFoldersPrecedeTestFolders(project: Project)
    ensures forall e | e in Contribution(project) ::
              e.SourceFolder? && ("test" in e.entryAttributes <==> e.output == DefaultOutputTest)
    ensures forall i, j | 0 <= i < j < |Contribution(project)| ::
              Contribution(project)[i].output == DefaultOutputTest ==> Contribution(project)[j].output == DefaultOutputTest
  {
    var r := Contribution(project);
    if project.android.Returned? && project.android.value.sourceSets.Returned? &&
       project.android.value.sourceSets.value.NamedContainer? {
      var sets := project.android.value.sourceSets.value.byName;
      var dir, fs := project.projectDir, project.fs;
      if "main" in sets {
        var main := SourceSetEntries(sets["main"], dir, fs, DefaultOutputMain);
        var tests := SourceSetsEntries(sets, dir, fs)[|main|..];
        assert SourceSetsEntries(sets, dir, fs) == main + tests;
        assert forall e | e in tests :: e.SourceFolder? && e.output == DefaultOutputTest &&
                                        "test" in e.entryAttributes;
        assert forall i | |main| <= i < |r| :: r[i] == tests[i - |main|];
        assert forall i | |main| <= i < |r| :: r[i] in tests;
        assert forall i | 0 <= i < |main| :: r[i] in main;
      }
    }
  }
}
