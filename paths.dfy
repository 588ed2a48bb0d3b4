/** Filesystem paths as sequences of name segments, and the two string
    operations the actions apply to them: rendering an absolute path and
    testing a string suffix. */
module Paths {

  /** A path as its sequence of name segments (no segment contains '/'). */
  type Path = seq<string>

  /** `String.endsWith`: `suffix` is a tail of `s`. */
  predicate EndsWith(s: string, suffix: string)
  {
    |suffix| <= |s| && s[|s| - |suffix|..] == suffix
  }

  /** The string `File.getAbsolutePath` gives for an absolute path on a
      POSIX system: every segment preceded by '/'. */
  function AbsolutePath(p: Path): string
  {
    if p == [] then "" else AbsolutePath(p[..|p| - 1]) + "/" + p[|p| - 1]
  }

  /** A path as a classpath entry records it: relative to the project
      directory (no leading '/'), or absolute. */
  datatype Location = ProjectRelative(segments: Path) | Absolute(segments: Path)

  /** Relativising `p` against `base`, as `URI.relativize` and
      `Path.relativize` do for a path that lies under `base`: the base
      prefix is stripped and the result is relative. A path not under
      `base` comes back unchanged, so `getPath` gives it as an absolute
      path. */
  function Relativize(base: Path, p: Path): (r: Location)
    ensures r.ProjectRelative? <==> base <= p
    ensures r.ProjectRelative? ==> base + r.segments == p
    ensures r.Absolute? ==> r.segments == p
  {
    if base <= p then ProjectRelative(p[|base|..]) else Absolute(p)
  }

  /** Distinct paths never relativise to the same location, whether they
      lie under the base or not. */
  lemma RelativizeInjective(base: Path, p: Path, q: Path)
    ensures Relativize(base, p) == Relativize(base, q) ==> p == q
  {
  }

  /** For a suffix without a separator, whether an absolute path ends with it
      depends only on the path's last segment, its file name. */
  lemma EndsWithFileName(dir: Path, name: string, suffix: string)
    requires '/' !in suffix
    ensures EndsWith(AbsolutePath(dir + [name]), suffix) <==> EndsWith(name, suffix)
  {
    var p := dir + [name];
    assert p[..|p| - 1] == dir;
    var prefix := AbsolutePath(dir) + "/";
    var s := AbsolutePath(p);
    assert s == prefix + name;
    if |suffix| <= |name| {
      assert s[|s| - |suffix|..] == name[|name| - |suffix|..];
    } else if |suffix| <= |s| {
      var k := |suffix| - |name| - 1;
      assert s[|s| - |suffix|..][k] == s[|prefix| - 1] == '/';
      assert s[|s| - |suffix|..] != suffix;
    }
  }
}
