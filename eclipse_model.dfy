/** The parts of Gradle's Eclipse model the actions write to: the
    `.classpath` file's entry list and the plus configurations of the
    `eclipse.classpath` block. */
module EclipseModel {
  import opened Paths
  import GradleProject

  /** The two output folders a source folder can compile into. Their string
      values are constants of the plugin class and only their distinctness
      matters here. */
  datatype OutputPath = DefaultOutputMain | DefaultOutputTest

  /** A classpath entry: a source folder (its path, output folder and entry
      attributes) or a library (the path of its file reference). */
  datatype Entry =
    | SourceFolder(path: Location, output: OutputPath, entryAttributes: map<string, string>)
    | Library(path: Location)

  /** The `.classpath` model: an ordered list of entries that the actions
      append to through `getEntries().add`. */
  class Classpath {
    var entries: seq<Entry>

    constructor (entries: seq<Entry>)
      ensures this.entries == entries
    {
      this.entries := entries;
    }

    /** `getEntries().add(entry)`. */
    method Add(entry: Entry)
      modifies this
      ensures entries == old(entries) + [entry]
    {
      entries := entries + [entry];
    }
  }

  /** The `eclipse.classpath` block, of which only the plus configurations
      are used. */
  class EclipseClasspath {
    var plusConfigurations: seq<GradleProject.Configuration>

    constructor (plusConfigurations: seq<GradleProject.Configuration>)
      ensures this.plusConfigurations == plusConfigurations
    {
      this.plusConfigurations := plusConfigurations;
    }

    /** `getPlusConfigurations().addAll(configurations)`. */
    method AddAll(configurations: seq<GradleProject.Configuration>)
      modifies this
      ensures plusConfigurations == old(plusConfigurations) + configurations
    {
      plusConfigurations := plusConfigurations + configurations;
    }
  }
}
