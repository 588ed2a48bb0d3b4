/** `AddDataBindingClasspathAction`: the generated data-binding source
    folder, when it exists. */
module AddDataBindingClasspath {
  import opened Paths
  import opened GradleProject
  import opened EclipseModel

  /** The data-binding source folder, relative to the project directory. */
  const DATA_BINDING_SOURCES: Path := ["build", "generated", "data_binding_base_class_source_out", "debug", "out"]

  /** What `execute` appends: one main-output folder at the fixed path with
      no attributes when the folder exists, nothing otherwise. */
  function Contribution(project: Project): (r: seq<Entry>)
    ensures |r| <= 1
    ensures |r| == 1 <==> project.fs.Exists(project.projectDir + DATA_BINDING_SOURCES)
    ensures forall e | e in r ::
              e.SourceFolder? && e.path == ProjectRelative(DATA_BINDING_SOURCES) && e.output == DefaultOutputMain && e.entryAttributes == map[]
  {
    if project.fs.Exists(project.projectDir + DATA_BINDING_SOURCES) then
      [SourceFolder(ProjectRelative(DATA_BINDING_SOURCES), DefaultOutputMain, map[])]
    else []
  }

  class AddDataBindingClasspathAction {
    const project: Project

    constructor (project: Project)
      ensures this.project == project
    {
      this.project := project;
    }

    method Execute(classpath: Classpath)
      modifies classpath
      ensures classpath.entries == old(classpath.entries) + Contribution(project)
    {
      var dataBindingFolder := project.projectDir + DATA_BINDING_SOURCES;
      if project.fs.Exists(dataBindingFolder) {
        classpath.Add(SourceFolder(ProjectRelative(DATA_BINDING_SOURCES), DefaultOutputMain, map[]));
      }
    }
  }
}
