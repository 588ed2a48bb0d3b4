/** `AddPlusConfigurationHandler`: registers the implementation
    configuration and the debug test compile classpaths as plus
    configurations of the Eclipse classpath, after giving the
    implementation configuration's project dependencies a default target
    and making it resolvable. */
module AddPlusConfigurationHandler {
  import opened GradleProject
  import opened EclipseModel

  const IMPLEMENTATION: string := "implementation"
  /** The target given to project dependencies that have none. */
  const DEFAULT_TARGET: string := "default"
  /** `CLASSPATH_CONFIGURATIONS`, looked up in this order after the
      implementation configuration. */
  const CLASSPATH_CONFIGURATIONS: seq<string> := ["debugAndroidTestCompileClasspath", "debugUnitTestCompileClasspath"]

  /** A configuration's place in the order of plus configurations. */
  function Rank(name: string): nat
  {
    if name == IMPLEMENTATION then 0 else if name == CLASSPATH_CONFIGURATIONS[0] then 1 else 2
  }

  /** The names among `candidates` that `names` contains, in candidate order. */
  function PresentNames(candidates: seq<string>, names: set<string>): seq<string>
  {
    if candidates == [] then []
    else
      var last := candidates[|candidates| - 1];
      PresentNames(candidates[..|candidates| - 1], names) + (if last in names then [last] else [])
  }

  /** The implementation configuration's name, if there is one. */
  function ImplementationName(names: set<string>): seq<string>
  {
    if IMPLEMENTATION in names then [IMPLEMENTATION] else []
  }

  /** The names of the configurations added: exactly those of the three
      known names that exist, implementation first, then
      debugAndroidTestCompileClasspath, then debugUnitTestCompileClasspath. */
  function SelectedNames(names: set<string>): (r: seq<string>)
    ensures forall n :: n in r <==> n in names && (n == IMPLEMENTATION || n in CLASSPATH_CONFIGURATIONS)
    ensures forall i, j | 0 <= i < j < |r| :: Rank(r[i]) < Rank(r[j])
  {
    var c := CLASSPATH_CONFIGURATIONS;
    assert c[..1][..0] == [] && c[..2][..1] == c[..1] && c[..2] == c;
    assert PresentNames(c[..1], names) == if c[0] in names then [c[0]] else [];
    assert PresentNames(c, names) == PresentNames(c[..1], names) + if c[1] in names then [c[1]] else [];
    ImplementationName(names) + PresentNames(c, names)
  }

  /** The configurations that `configurations` holds under `names`, in
      order. */
  function Named(configurations: map<string, Configuration>, names: seq<string>): seq<Configuration>
  {
    if names == [] then []
    else
      var last := names[|names| - 1];
      Named(configurations, names[..|names| - 1]) + if last in configurations then [configurations[last]] else []
  }

  /** A dependency after the handler's rewrite of it: a project dependency
      without a target gets `default`, and every other dependency stays as
      it was. */
  function DefaultTarget(dependency: Dependency): (r: Dependency)
    ensures r.ProjectDependency? <==> dependency.ProjectDependency?
    ensures r.ProjectDependency? ==> r.projectPath == dependency.projectPath && r.targetConfiguration.Some?
    ensures dependency.ProjectDependency? && dependency.targetConfiguration.None? ==>
              r.targetConfiguration == Some(DEFAULT_TARGET)
    ensures !(dependency.ProjectDependency? && dependency.targetConfiguration.None?) ==> r == dependency
  {
    if dependency.ProjectDependency? && dependency.targetConfiguration.None? then
      dependency.(targetConfiguration := Some(DEFAULT_TARGET))
    else dependency
  }

  /** The dependencies after the `forEach` has visited them all: as many as
      before, and no project dependency is left without a target. */
  function WithDefaultTargets(dependencies: seq<Dependency>): (r: seq<Dependency>)
    ensures |r| == |dependencies|
    ensures forall d | d in r :: d.ProjectDependency? ==> d.targetConfiguration.Some?
  {
    if dependencies == [] then []
    else
      WithDefaultTargets(dependencies[..|dependencies| - 1]) + [DefaultTarget(dependencies[|dependencies| - 1])]
  }

  /** The objects the handler may change: the implementation configuration
      if it exists, otherwise none. */
  function ImplementationFrame(configurations: map<string, Configuration>): set<Configuration>
  {
    if IMPLEMENTATION in configurations then {configurations[IMPLEMENTATION]} else {}
  }

  /** `addPlusConfiguration`: the selected configurations are appended to
      the existing plus configurations. */
  method AddPlusConfiguration(configurations: map<string, Configuration>, eclipseClasspath: EclipseClasspath)
    modifies eclipseClasspath, ImplementationFrame(configurations)
    ensures eclipseClasspath.plusConfigurations ==
            old(eclipseClasspath.plusConfigurations) + Named(configurations, SelectedNames(configurations.Keys))
    ensures IMPLEMENTATION in configurations ==>
              configurations[IMPLEMENTATION].canBeResolved &&
              configurations[IMPLEMENTATION].dependencies == WithDefaultTargets(old(configurations[IMPLEMENTATION].dependencies))
  {
    var plusConfigurations: seq<Configuration> := [];
    var implementationConfiguration := ResolveImplementationConfiguration(configurations);
    label resolved:
    if implementationConfiguration != null {
      plusConfigurations := plusConfigurations + [implementationConfiguration];
    }
    var keys := configurations.Keys;
    ghost var selected := ImplementationName(keys);
    assert CLASSPATH_CONFIGURATIONS[..0] == [];
    for k := 0 to |CLASSPATH_CONFIGURATIONS|
      invariant selected == ImplementationName(keys) + PresentNames(CLASSPATH_CONFIGURATIONS[..k], keys)
      invariant plusConfigurations == Named(configurations, selected)
      invariant eclipseClasspath.plusConfigurations == old(eclipseClasspath.plusConfigurations)
      invariant unchanged@resolved(ImplementationFrame(configurations))
    {
      var configurationName := CLASSPATH_CONFIGURATIONS[k];
      LookupStep(configurations, CLASSPATH_CONFIGURATIONS, k, ImplementationName(keys), selected);
      if configurationName in configurations {
        plusConfigurations := plusConfigurations + [configurations[configurationName]];
        selected := selected + [configurationName];
      }
    }
    assert CLASSPATH_CONFIGURATIONS[..|CLASSPATH_CONFIGURATIONS|] == CLASSPATH_CONFIGURATIONS;
    SelectedNamesUnfold(keys);
    eclipseClasspath.AddAll(plusConfigurations);
  }

  lemma SelectedNamesUnfold(names: set<string>)
    ensures SelectedNames(names) == ImplementationName(names) + PresentNames(CLASSPATH_CONFIGURATIONS, names)
  {
  }

  /** When every name is present, the `i`th configuration is the one named
      by the `i`th name. */
  lemma {:induction false} NamedPointwise(configurations: map<string, Configuration>, names: seq<string>)
    requires forall n | n in names :: n in configurations
    ensures |Named(configurations, names)| == |names|
    ensures forall i | 0 <= i < |names| :: Named(configurations, names)[i] == configurations[names[i]]
  {
    if names != [] {
      var init := names[..|names| - 1];
      assert forall n | n in init :: n in names;
      NamedPointwise(configurations, init);
    }
  }

  /** The plus configurations added are exactly the configurations under the
      selected names, in the selected order. */
  lemma SelectedConfigurations(configurations: map<string, Configuration>)
    ensures var names := SelectedNames(configurations.Keys);
            |Named(configurations, names)| == |names| &&
            forall i | 0 <= i < |names| :: Named(configurations, names)[i] == configurations[names[i]]
  {
    NamedPointwise(configurations, SelectedNames(configurations.Keys));
  }

  /** One step of the lookup loop over `candidates`: the configuration of
      `candidates[k]`, when present, extends both the names looked up so far
      and the configurations collected. */
  lemma LookupStep(configurations: map<string, Configuration>, candidates: seq<string>, k: nat,
                   first: seq<string>, selected: seq<string>)
    requires k < |candidates|
    requires selected == first + PresentNames(candidates[..k], configurations.Keys)
    ensures candidates[k] in configurations ==>
              first + PresentNames(candidates[..k + 1], configurations.Keys) == selected + [candidates[k]] &&
              Named(configurations, selected + [candidates[k]]) == Named(configurations, selected) + [configurations[candidates[k]]]
    ensures candidates[k] !in configurations ==>
              first + PresentNames(candidates[..k + 1], configurations.Keys) == selected
  {
    assert candidates[..k + 1][..k] == candidates[..k];
    var name := candidates[k];
    assert (selected + [name])[..|selected|] == selected;
  }

  /** `resolveImplementationConfiguration`: null when there is no
      implementation configuration, and then nothing changes; otherwise
      that configuration, now resolvable and with a default target for
      every project dependency that had none. */
  method ResolveImplementationConfiguration(configurations: map<string, Configuration>)
    returns (implementation: Configuration?)
    modifies ImplementationFrame(configurations)
    ensures implementation == null <==> IMPLEMENTATION !in configurations
    ensures implementation != null ==>
              implementation == configurations[IMPLEMENTATION] && implementation.canBeResolved &&
              implementation.dependencies == WithDefaultTargets(old(implementation.dependencies))
  {
    if IMPLEMENTATION !in configurations {
      return null;
    }
    var implementationConfiguration := configurations[IMPLEMENTATION];
    ghost var original := implementationConfiguration.dependencies;
    var i := 0;
    while i < |implementationConfiguration.dependencies|
      invariant 0 <= i <= |original| == |implementationConfiguration.dependencies|
      invariant implementationConfiguration.dependencies == WithDefaultTargets(original[..i]) + original[i..]
    {
      ghost var current := implementationConfiguration.dependencies;
      DefaultTargetStep(original, i, current);
      var dependency := implementationConfiguration.dependencies[i];
      if dependency.ProjectDependency? && dependency.targetConfiguration.None? {
        implementationConfiguration.dependencies :=
          implementationConfiguration.dependencies[i := dependency.(targetConfiguration := Some(DEFAULT_TARGET))];
      }
      i := i + 1;
    }
    assert original[..i] == original;
    implementationConfiguration.canBeResolved := true;
    return implementationConfiguration;
  }

  /** One step of the `forEach`: rewriting the dependency at `i` extends the
      rewritten prefix by one. */
  lemma DefaultTargetStep(original: seq<Dependency>, i: nat, current: seq<Dependency>)
    requires i < |original|
    requires current == WithDefaultTargets(original[..i]) + original[i..]
    ensures current[i] == original[i]
    ensures current[i := DefaultTarget(current[i])] == WithDefaultTargets(original[..i + 1]) + original[i + 1..]
    ensures DefaultTarget(current[i]) == current[i] ==> current == WithDefaultTargets(original[..i + 1]) + original[i + 1..]
  {
    assert current[i] == original[i..][0];
    assert original[..i + 1][..i] == original[..i];
    assert original[i..] == [original[i]] + original[i + 1..];
  }

  /** A project dependency without a target gets the target `default`;
      every other dependency is left as it was. */
  lemma {:induction false} DefaultTargetsPointwise(dependencies: seq<Dependency>)
    ensures |WithDefaultTargets(dependencies)| == |dependencies|
    ensures forall i | 0 <= i < |dependencies| ::
              WithDefaultTargets(dependencies)[i] ==
              if dependencies[i].ProjectDependency? && dependencies[i].targetConfiguration.None? then
                ProjectDependency(dependencies[i].projectPath, Some(DEFAULT_TARGET))
              else dependencies[i]
  {
    if dependencies != [] {
      DefaultTargetsPointwise(dependencies[..|dependencies| - 1]);
    }
  }

  /** Running the rewrite again changes nothing more. */
  lemma DefaultTargetsIdempotent(dependencies: seq<Dependency>)
    ensures WithDefaultTargets(WithDefaultTargets(dependencies)) == WithDefaultTargets(dependencies)
  {
    DefaultTargetsPointwise(dependencies);
    DefaultTargetsPointwise(WithDefaultTargets(dependencies));
  }

  /** With `implementation`, both debug test classpaths and an unrelated
      configuration present, the first three are selected in that order. */
  lemma SelectionExample(other: string)
    requires other != IMPLEMENTATION && other !in CLASSPATH_CONFIGURATIONS
    ensures SelectedNames({IMPLEMENTATION, CLASSPATH_CONFIGURATIONS[0], CLASSPATH_CONFIGURATIONS[1], other}) ==
            [IMPLEMENTATION, CLASSPATH_CONFIGURATIONS[0], CLASSPATH_CONFIGURATIONS[1]]
  {
    var c := CLASSPATH_CONFIGURATIONS;
    var names := {IMPLEMENTATION, c[0], c[1], other};
    assert c[..1][..0] == [] && c[..2][..1] == c[..1] && c[..2] == c;
    assert PresentNames(c[..1], names) == [c[0]];
  }
}
