/** `AddRClasspathAction`: the generated R class, as a library for the first
    `R.jar` found under an `r_class_jar` intermediate, or else as the
    generated R source folder when that exists. */
module AddRClasspath {
  import opened Paths
  import opened GradleProject
  import opened EclipseModel

  /** `build/intermediates`, below the project directory. */
  const INTERMEDIATES: Path := ["build", "intermediates"]
  /** The preferred jar layout below an intermediate. */
  const R_JAR: Path := ["debug", "R.jar"]
  /** The second jar layout below an intermediate. */
  const GENERATED_R_JAR: Path := ["debug", "generateDebugRFile", "R.jar"]
  /** The fallback source folder, relative to the project directory. */
  const R_SOURCES: Path := ["build", "generated", "not_namespaced_r_class_sources", "debug", "processDebugResources", "r"]

  /** An intermediate is a jar candidate when its absolute path ends with
      `r_class_jar`. */
  predicate IsRClassJarDir(intermediate: Path)
  {
    EndsWith(AbsolutePath(intermediate), "r_class_jar")
  }

  /** The jar a candidate offers, the preferred layout first: only
      `r_class_jar` intermediates offer a jar, the jar offered exists,
      `debug/R.jar` is taken whenever it exists and
      `debug/generateDebugRFile/R.jar` only otherwise. */
  function CandidateJar(intermediate: Path, fs: FileSystem): (r: Option<Path>)
    ensures r.Some? ==> IsRClassJarDir(intermediate) && fs.Exists(r.value)
    ensures r.Some? ==> r.value == intermediate + R_JAR || r.value == intermediate + GENERATED_R_JAR
    ensures IsRClassJarDir(intermediate) && fs.Exists(intermediate + R_JAR) ==> r == Some(intermediate + R_JAR)
    ensures r == Some(intermediate + GENERATED_R_JAR) ==> !fs.Exists(intermediate + R_JAR)
    ensures r.None? <==>
              !IsRClassJarDir(intermediate) ||
              (!fs.Exists(intermediate + R_JAR) && !fs.Exists(intermediate + GENERATED_R_JAR))
  {
    assert |intermediate + R_JAR| < |intermediate + GENERATED_R_JAR|;
    if !IsRClassJarDir(intermediate) then None
    else if fs.Exists(intermediate + R_JAR) then Some(intermediate + R_JAR)
    else if fs.Exists(intermediate + GENERATED_R_JAR) then Some(intermediate + GENERATED_R_JAR)
    else None
  }

  /** The jar of the first child of `dir` (in listing order) that offers one. */
  function FirstJar(dir: Path, names: seq<string>, fs: FileSystem): (r: Option<Path>)
    ensures r.Some? ==> fs.Exists(r.value) && dir <= r.value
  {
    if names == [] then None
    else
      match CandidateJar(dir + [names[0]], fs)
      case Some(jar) => Some(jar)
      case None => FirstJar(dir, names[1..], fs)
  }

  /** The jar the loop finds; none when the intermediates folder is missing
      or is not a directory. */
  function FoundJar(project: Project): (r: Option<Path>)
    ensures var dir := project.projectDir + INTERMEDIATES;
            r.Some? ==>
              project.fs.Exists(dir) && project.fs.IsDirectory(dir) &&
              exists name :: name in project.fs.ListFiles(dir) && CandidateJar(dir + [name], project.fs) == r
  {
    var dir := project.projectDir + INTERMEDIATES;
    if project.fs.Exists(dir) && project.fs.IsDirectory(dir) then
      var r := FirstJar(dir, project.fs.ListFiles(dir), project.fs);
      if r.Some? then FirstJarIsFirst(dir, project.fs.ListFiles(dir), project.fs, r.value); r else r
    else None
  }

  /** What `execute` appends: at most one entry, and its path is relative
      to the project directory. */
  function Contribution(project: Project): (r: seq<Entry>)
    ensures |r| <= 1
    ensures forall e | e in r :: e.path.ProjectRelative?
  {
    match FoundJar(project)
    case Some(jar) => [Library(Relativize(project.projectDir, jar))]
    case None =>
      if project.fs.Exists(project.projectDir + R_SOURCES) then [SourceFolder(ProjectRelative(R_SOURCES), DefaultOutputMain, map[])]
      else []
  }

  class AddRClasspathAction {
    const project: Project

    constructor (project: Project)
      ensures this.project == project
    {
      this.project := project;
    }

    method Execute(classpath: Classpath)
      modifies classpath
      ensures classpath.entries == old(classpath.entries) + Contribution(project)
    {
      var fs := project.fs;
      var intermediatesFolder := project.projectDir + INTERMEDIATES;
      if fs.Exists(intermediatesFolder) && fs.IsDirectory(intermediatesFolder) {
        var intermediates := fs.ListFiles(intermediatesFolder);
        var i := 0;
        while i < |intermediates|
          invariant 0 <= i <= |intermediates|
          invariant FirstJar(intermediatesFolder, intermediates[i..], fs) == FoundJar(project)
          invariant classpath.entries == old(classpath.entries)
        {
          var intermediate := intermediatesFolder + [intermediates[i]];
          assert intermediates[i..][1..] == intermediates[i + 1..];
          if EndsWith(AbsolutePath(intermediate), "r_class_jar") {
            var rPath := intermediate + R_JAR;
            if fs.Exists(rPath) {
              classpath.Add(Library(Relativize(project.projectDir, rPath)));
              return;
            } else {
              rPath := intermediate + GENERATED_R_JAR;
              if fs.Exists(rPath) {
                classpath.Add(Library(Relativize(project.projectDir, rPath)));
                return;
              }
            }
          }
          i := i + 1;
        }
      }
      var rFolderFile := project.projectDir + R_SOURCES;
      if fs.Exists(rFolderFile) {
        classpath.Add(SourceFolder(ProjectRelative(R_SOURCES), DefaultOutputMain, map[]));
      }
    }
  }

  /** Whether an intermediate is a candidate depends on its name only. */
  lemma RClassJarByName(dir: Path, name: string)
    ensures IsRClassJarDir(dir + [name]) <==> EndsWith(name, "r_class_jar")
  {
    EndsWithFileName(dir, name, "r_class_jar");
  }

  /** The first candidate in listing order that offers a jar wins: the
      result is the jar of child `k`, and no child before `k` offers one. */
  lemma {:induction false} FirstJarIsFirst(dir: Path, names: seq<string>, fs: FileSystem, jar: Path)
    ensures FirstJar(dir, names, fs) == Some(jar) <==>
            exists k :: 0 <= k < |names| && CandidateJar(dir + [names[k]], fs) == Some(jar) &&
                        forall j :: 0 <= j < k ==> CandidateJar(dir + [names[j]], fs).None?
  {
    if names != [] {
      FirstJarIsFirst(dir, names[1..], fs, jar);
      var rest := names[1..];
      if FirstJar(dir, names, fs) == Some(jar) && CandidateJar(dir + [names[0]], fs).None? {
        var k :| 0 <= k < |rest| && CandidateJar(dir + [rest[k]], fs) == Some(jar) &&
                 forall j :: 0 <= j < k ==> CandidateJar(dir + [rest[j]], fs).None?;
        forall j | 0 <= j < k + 1
          ensures CandidateJar(dir + [names[j]], fs).None?
        {
          if j > 0 {
            assert names[j] == rest[j - 1];
          }
        }
        assert CandidateJar(dir + [names[k + 1]], fs) == Some(jar);
      }
      if exists k :: 0 <= k < |names| && CandidateJar(dir + [names[k]], fs) == Some(jar) &&
                     forall j :: 0 <= j < k ==> CandidateJar(dir + [names[j]], fs).None? {
        var k :| 0 <= k < |names| && CandidateJar(dir + [names[k]], fs) == Some(jar) &&
                 forall j :: 0 <= j < k ==> CandidateJar(dir + [names[j]], fs).None?;
        if k > 0 {
          assert CandidateJar(dir + [names[0]], fs).None?;
          assert rest[k - 1] == names[k];
          assert forall j :: 0 <= j < k - 1 ==> rest[j] == names[j + 1];
          assert FirstJar(dir, rest, fs) == Some(jar);
        }
      }
    }
  }

  /** No jar is found exactly when no child offers one. */
  lemma {:induction false} FirstJarNone(dir: Path, names: seq<string>, fs: FileSystem)
    ensures FirstJar(dir, names, fs).None? <==> forall k :: 0 <= k < |names| ==> CandidateJar(dir + [names[k]], fs).None?
  {
    if names != [] {
      FirstJarNone(dir, names[1..], fs);
      assert forall k :: 1 <= k < |names| ==> names[k] == names[1..][k - 1];
    }
  }

  /** A library entry comes from a candidate's jar: its path is
      `build/intermediates/<name>/debug/R.jar` or
      `build/intermediates/<name>/debug/generateDebugRFile/R.jar` relative
      to the project directory, for a listed `r_class_jar` intermediate,
      and the jar exists. */
  lemma JarLibraryPath(project: Project)
    requires Contribution(project) != [] && Contribution(project)[0].Library?
    ensures var dir := project.projectDir + INTERMEDIATES;
            var path := Contribution(project)[0].path;
            project.fs.Exists(project.projectDir + path.segments) &&
            exists name :: name in project.fs.ListFiles(dir) && EndsWith(name, "r_class_jar") &&
                           (path == ProjectRelative(INTERMEDIATES + [name] + R_JAR) ||
                            path == ProjectRelative(INTERMEDIATES + [name] + GENERATED_R_JAR))
  {
    var dir := project.projectDir + INTERMEDIATES;
    var names := project.fs.ListFiles(dir);
    var jar := FoundJar(project).value;
    FirstJarIsFirst(dir, names, project.fs, jar);
    var k :| 0 <= k < |names| && CandidateJar(dir + [names[k]], project.fs) == Some(jar) &&
             forall j :: 0 <= j < k ==> CandidateJar(dir + [names[j]], project.fs).None?;
    var name := names[k];
    RClassJarByName(dir, name);
    var path := Contribution(project)[0].path;
    if jar == dir + [name] + R_JAR {
      assert jar == project.projectDir + (INTERMEDIATES + [name] + R_JAR);
      assert path == ProjectRelative(INTERMEDIATES + [name] + R_JAR);
    } else {
      assert jar == project.projectDir + (INTERMEDIATES + [name] + GENERATED_R_JAR);
      assert path == ProjectRelative(INTERMEDIATES + [name] + GENERATED_R_JAR);
    }
  }

  /** The fallback source folder is appended exactly when no jar was found
      and the folder exists; it has the main output and no attributes. */
  lemma FallbackOnlyWithoutJar(project: Project)
    ensures Contribution(project) == [SourceFolder(ProjectRelative(R_SOURCES), DefaultOutputMain, map[])] <==>
            FoundJar(project).None? && project.fs.Exists(project.projectDir + R_SOURCES)
    ensures Contribution(project) == [] <==>
            FoundJar(project).None? && !project.fs.Exists(project.projectDir + R_SOURCES)
  {
  }

  /** When the intermediates folder is missing or is not a directory, no jar
      is probed and only the fallback is tried. */
  lemma MissingIntermediatesTriesFallback(project: Project)
    requires !project.fs.Exists(project.projectDir + INTERMEDIATES) ||
             !project.fs.IsDirectory(project.projectDir + INTERMEDIATES)
    ensures Contribution(project) ==
            if project.fs.Exists(project.projectDir + R_SOURCES) then [SourceFolder(ProjectRelative(R_SOURCES), DefaultOutputMain, map[])]
            else []
  {
  }
}
