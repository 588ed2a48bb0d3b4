/** `AddBootClasspathAction`: one library per boot classpath `File` whose
    absolute path ends with `android.jar`, in boot classpath order. */
module AddBootClasspath {
  import opened Paths
  import opened GradleProject
  import opened EclipseModel

  /** The filter: a string suffix test on the absolute path, so a file
      named `xandroid.jar` passes too. */
  predicate IsAndroidJar(p: Path)
  {
    EndsWith(AbsolutePath(p), "android.jar")
  }

  /** A boot classpath element that yields a library. */
  predicate IsPlatformJar(element: Element)
  {
    element.FileElement? && IsAndroidJar(element.path)
  }

  /** The libraries the `forEach` appends for `elements`, in their order:
      at most one per element, each a library at the absolute path of a
      file passing the filter. */
  function BootEntries(elements: seq<Element>): (r: seq<Entry>)
    ensures |r| <= |elements|
    ensures forall e | e in r :: e.Library? && e.path.Absolute? && IsAndroidJar(e.path.segments)
  {
    if elements == [] then []
    else
      var last := elements[|elements| - 1];
      BootEntries(elements[..|elements| - 1]) + (if IsPlatformJar(last) then [Library(Absolute(last.path))] else [])
  }

  /** Everything `execute` appends: libraries passing the filter only, and
      nothing when `getBootClasspath` throws or does not return a `List`. */
  function Contribution(project: Project): (r: seq<Entry>)
    ensures forall e | e in r :: e.Library? && e.path.Absolute? && IsAndroidJar(e.path.segments)
    ensures r != [] ==>
              project.android.Returned? && project.android.value.bootClasspath.Returned? &&
              project.android.value.bootClasspath.value.ListValue?
  {
    match project.android
    case Threw => []
    case Returned(android) =>
      match android.bootClasspath
      case Returned(ListValue(elements)) => BootEntries(elements)
      case _ => []
  }

  /** The indices of the elements that yield a library. */
  function MatchingIndices(elements: seq<Element>): set<nat>
  {
    set i: nat | i < |elements| && IsPlatformJar(elements[i])
  }

  class AddBootClasspathAction {
    const project: Project

    constructor (project: Project)
      ensures this.project == project
    {
      this.project := project;
    }

    /** Appends `Contribution(project)`; when the `android` property itself
        is missing, the exception escapes (`escaped`) and nothing is added. */
    method Execute(classpath: Classpath) returns (escaped: bool)
      modifies classpath
      ensures escaped <==> project.android.Threw?
      ensures classpath.entries == old(classpath.entries) + Contribution(project)
    {
      if project.android.Threw? {
        return true;
      }
      escaped := false;
      var bootClasspaths := project.android.value.bootClasspath;
      if bootClasspaths.Returned? && bootClasspaths.value.ListValue? {
        var elements := bootClasspaths.value.elements;
        var i := 0;
        while i < |elements|
          invariant 0 <= i <= |elements|
          invariant classpath.entries == old(classpath.entries) + BootEntries(elements[..i])
        {
          var bootClasspath := elements[i];
          if bootClasspath.FileElement? && EndsWith(AbsolutePath(bootClasspath.path), "android.jar") {
            classpath.Add(Library(Absolute(bootClasspath.path)));
          }
          assert elements[..i + 1][..i] == elements[..i];
          i := i + 1;
        }
        assert elements[..|elements|] == elements;
      }
    }
  }

  /** The libraries keep the order of the boot classpath: those of a prefix
      come before those of the rest. */
  lemma {:induction false} BootEntriesAppend(a: seq<Element>, b: seq<Element>)
    ensures BootEntries(a + b) == BootEntries(a) + BootEntries(b)
    decreases |b|
  {
    if b == [] {
      assert a + b == a;
    } else {
      var b' := b[..|b| - 1];
      assert (a + b)[..|a + b| - 1] == a + b';
      BootEntriesAppend(a, b');
    }
  }

  /** A single element yields a library exactly when it is a `File` whose
      absolute path ends with `android.jar`. */
  lemma BootEntriesSingle(element: Element)
    ensures BootEntries([element]) == if IsPlatformJar(element) then [Library(Absolute(element.path))] else []
  {
    assert [element][..0] == [];
  }

  /** `Library(p)` is appended exactly when some element is the `File` `p`
      passing the filter. */
  lemma {:induction false} BootEntriesMembership(elements: seq<Element>, e: Entry)
    ensures e in BootEntries(elements) <==>
            exists i :: 0 <= i < |elements| && IsPlatformJar(elements[i]) && e == Library(Absolute(elements[i].path))
  {
    if elements != [] {
      var init := elements[..|elements| - 1];
      BootEntriesMembership(init, e);
      if e in BootEntries(elements) && e !in BootEntries(init) {
        var last := elements[|elements| - 1];
        assert IsPlatformJar(last) && e == Library(Absolute(last.path));
      }
      forall i | 0 <= i < |init|
        ensures elements[i] == init[i]
      {
      }
    }
  }

  /** As many libraries as matching elements. */
  lemma {:induction false} BootEntriesCount(elements: seq<Element>)
    ensures |BootEntries(elements)| == |MatchingIndices(elements)|
  {
    if elements == [] {
      assert MatchingIndices(elements) == {};
    } else {
      var n := |elements| - 1;
      var init := elements[..n];
      BootEntriesCount(init);
      var last: set<nat> := if IsPlatformJar(elements[n]) then {n} else {};
      assert MatchingIndices(elements) == MatchingIndices(init) + last;
      assert n !in MatchingIndices(init);
    }
  }

  /** The filter looks at the file name only. */
  lemma AndroidJarByFileName(dir: Path, name: string)
    ensures IsAndroidJar(dir + [name]) <==> EndsWith(name, "android.jar")
  {
    EndsWithFileName(dir, name, "android.jar");
  }

  /** Suffix semantics: `xandroid.jar` passes the filter, the optional
      `org.apache.http.legacy.jar` does not, and a boot classpath of
      `android.jar` and `optional/org.apache.http.legacy.jar` yields the
      one library for `android.jar`. */
  lemma SuffixSemantics(sdk: Path)
    ensures IsAndroidJar(sdk + ["xandroid.jar"])
    ensures var legacy := sdk + ["optional", "org.apache.http.legacy.jar"];
            BootEntries([FileElement(sdk + ["android.jar"]), FileElement(legacy)]) == [Library(Absolute(sdk + ["android.jar"]))]
  {
    AndroidJarByFileName(sdk, "xandroid.jar");
    var legacy := sdk + ["optional", "org.apache.http.legacy.jar"];
    assert legacy == (sdk + ["optional"]) + ["org.apache.http.legacy.jar"];
    AndroidJarByFileName(sdk + ["optional"], "org.apache.http.legacy.jar");
    AndroidJarByFileName(sdk, "android.jar");
    var elements := [FileElement(sdk + ["android.jar"]), FileElement(legacy)];
    assert elements[..1] == [FileElement(sdk + ["android.jar"])];
    BootEntriesSingle(FileElement(sdk + ["android.jar"]));
  }
}
