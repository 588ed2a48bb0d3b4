/** `AndroidSdkLibraryDependenciesAction`: one library for the Android SDK
    platform jar, at a path fixed in the source. */
module AndroidSdkLibraryDependencies {
  import opened Paths
  import opened GradleProject
  import opened EclipseModel

  /** The fixed `C:/Users/chenshi/AppData/Local/Android/Sdk/platforms/android-28/android.jar`,
      split at its separators. */
  const SDK_PLATFORM_JAR: Path :=
    ["C:", "Users", "chenshi", "AppData", "Local", "Android", "Sdk", "platforms", "android-28", "android.jar"]

  /** The SDK library: an absolute path to the `android.jar` of platform
      `android-28`, below the SDK's `platforms` folder. */
  function AndroidSdkEntry(): (e: Entry)
    ensures e.Library? && e.path.Absolute?
    ensures var p := e.path.segments;
            |p| >= 3 && p[|p| - 1] == "android.jar" && p[|p| - 2] == "android-28" && p[|p| - 3] == "platforms"
  {
    Library(Absolute(SDK_PLATFORM_JAR))
  }

  class AndroidSdkLibraryDependenciesAction {
    const project: Project

    constructor (project: Project)
      ensures this.project == project
    {
      this.project := project;
    }

    /** Appends exactly the SDK library, whatever the state. */
    method Execute(classpath: Classpath)
      modifies classpath
      ensures classpath.entries == old(classpath.entries) + [AndroidSdkEntry()]
    {
      classpath.Add(AndroidSdkEntry());
    }
  }
}
