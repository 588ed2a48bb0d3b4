/** The Gradle project state the actions read, captured as a snapshot:
    the filesystem, the results of the reflective calls on the Android
    plugin's extension object, and the configurations the plus
    configuration handler updates. */
module GradleProject {
  import opened Paths

  datatype Option<T> = None | Some(value: T)

  /** The outcome of a reflective call (`getMethod(...).invoke(...)`) or a
      property lookup: the value it returned, or an exception. */
  datatype Invocation<T> = Returned(value: T) | Threw

  /** An element of a collection returned by reflection: a `java.io.File`
      (given by its absolute path) or any other object. */
  datatype Element = FileElement(path: Path) | OtherObject

  /** A value returned by reflection, told apart as far as the actions'
      `instanceof Set` and `instanceof List` tests go. The elements are in
      the collection's iteration order. */
  datatype Value = SetValue(elements: seq<Element>) | ListValue(elements: seq<Element>) | OtherValue

  /** An Android source set; only its `getJavaDirectories` result is read. */
  datatype SourceSet = SourceSet(javaDirectories: Invocation<Value>)

  /** The result of `getSourceSets`: a `FactoryNamedDomainObjectContainer`,
      whose `getByName` finds the source sets in `byName`, or another object. */
  datatype SourceSets = NamedContainer(byName: map<string, SourceSet>) | OtherContainer

  /** The `android` extension object. A null extension is one whose every
      invocation throws (a `NullPointerException`). */
  datatype AndroidExtension = AndroidExtension(sourceSets: Invocation<SourceSets>, bootClasspath: Invocation<Value>)

  /** A snapshot of the filesystem: the paths that exist, those that are
      directories, and what `listFiles` gives for a directory (the child
      names, in listing order). */
  datatype FileSystem = FileSystem(existing: set<Path>, directories: set<Path>, listings: map<Path, seq<string>>)
  {
    predicate Exists(p: Path)
    {
      p in existing
    }

    predicate IsDirectory(p: Path)
    {
      p in directories
    }

    function ListFiles(dir: Path): seq<string>
    {
      if dir in listings then listings[dir] else []
    }
  }

  /** The project the actions are constructed with: its directory (an
      absolute path), the filesystem, and the lookup of the `android`
      property, which throws when the property is missing. */
  datatype Project = Project(projectDir: Path, fs: FileSystem, android: Invocation<AndroidExtension>)

  /** A dependency of a configuration. `ProjectDependency` is a
      `DefaultProjectDependency`, whose target configuration may be null;
      every other kind of dependency is `OtherDependency`. */
  datatype Dependency =
    | ProjectDependency(projectPath: string, targetConfiguration: Option<string>)
    | OtherDependency(notation: string)

  /** A Gradle configuration: its name, its dependencies and whether it can
      be resolved. The handler changes the last two in place. */
  class Configuration {
    const name: string
    var dependencies: seq<Dependency>
    var canBeResolved: bool

    constructor (name: string, dependencies: seq<Dependency>, canBeResolved: bool)
      ensures this.name == name
      ensures this.dependencies == dependencies
      ensures this.canBeResolved == canBeResolved
    {
      this.name := name;
      this.dependencies := dependencies;
      this.canBeResolved := canBeResolved;
    }
  }
}
