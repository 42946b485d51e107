/** The runtime context: parsed from environment variables, and printed as the environment of a subprocess. */
module RuntimeContext {
  import opened Text

  // ---------------------------------------------------------------- paths

  /** The segments of a resolved absolute path; the root has none. */
  type Path = seq<string>

  predicate Segment(s: string) { s != "" && s != "." && s != ".." && '/' !in s }

  ghost predicate Resolved(p: Path) { forall s :: s in p ==> Segment(s) }

  predicate Absolute(text: string) { text != "" && text[0] == '/' }

  function Into(base: Path, segment: string): Path
  {
    if segment == "" || segment == "." then base
    else if segment == ".." then (if base == [] then [] else base[..|base| - 1])
    else base + [segment]
  }

  function Walk(base: Path, segments: seq<string>): Path
    decreases segments
  {
    if segments == [] then base else Walk(Into(base, segments[0]), segments[1..])
  }

  /** `path.resolve(text)` in directory `cwd`. */
  function Resolve(text: string, cwd: Path): Path
  {
    Walk(if Absolute(text) then [] else cwd, Split(text, '/'))
  }

  function Show(p: Path): string
  {
    if p == [] then "/" else Join([""] + p, '/')
  }

  /** `path.dirname`. */
  function Parent(p: Path): Path { if p == [] then [] else p[..|p| - 1] }

  // ---------------------------------------------------------------- environment and context

  datatype Env = Env(
    home: Option<string>,
    xdgData: Option<string>,
    xdgCache: Option<string>,
    xdgConfig: Option<string>,
    xdgState: Option<string>,
    sandboxRoot: Option<string>,
    db: Option<string>,
    configDir: Option<string>,
    launchAgentsDir: Option<string>,
    launchdDisabled: Option<string>)

  /** What a process sees: `allowed(root, path)` says that a sandbox's real path holds a path's real path. */
  datatype Host = Host(cwd: Path, homedir: string, tmpdir: Path, allowed: (Path, Path) -> bool)

  datatype Paths = Paths(home: Path, data: Path, cache: Path, config: Path, state: Path, tmp: Path, bin: Path, log: Path)

  datatype Access = Production | Test(sandbox: Path)

  datatype Database = Memory | File(path: Path) | Channel(channel: string, path: Path)

  datatype Launchd = Enabled(launchAgents: Path, logFile: Path) | Disabled

  datatype Context = Context(paths: Paths, access: Access, database: Database, launchd: Launchd)

  datatype Error = RelativePath | SandboxEscape | InvalidDatabase

  datatype Result<+T> = Ok(value: T) | Err(error: Error) {
    predicate IsFailure() { Err? }
    function PropagateFailure<U>(): Result<U> requires Err? { Err(error) }
    function Extract(): T requires Ok? { value }
  }

  // ---------------------------------------------------------------- parsing

  /** A variable's trimmed value, unless that is empty. */
  function Given(variable: Option<string>): Option<string>
  {
    if variable.Some? && Trim(variable.value) != "" then Some(Trim(variable.value)) else None
  }

  function AbsolutePath(text: string): Result<Path>
  {
    if Absolute(text) then Ok(Resolve(text, [])) else Err(RelativePath)
  }

  function GivenPath(variable: Option<string>, fallback: Path): Result<Path>
  {
    var text := Given(variable);
    if text.Some? then AbsolutePath(text.value) else Ok(fallback)
  }

  function HomePath(env: Env, host: Host): Path
  {
    var text := Given(env.home);
    Resolve(if text.Some? then text.value else host.homedir, host.cwd)
  }

  function ConfigPath(env: Env, home: Path): Result<Path>
  {
    if Given(env.configDir).Some? then AbsolutePath(Given(env.configDir).value)
    else
      var root :- GivenPath(env.xdgConfig, home + [".config"]);
      Ok(root + ["interbase"])
  }

  /** `productionPaths`. */
  function ProductionPaths(env: Env, host: Host): Result<Paths>
  {
    var home := HomePath(env, host);
    var dataRoot :- GivenPath(env.xdgData, home + [".local", "share"]);
    var cacheRoot :- GivenPath(env.xdgCache, home + [".cache"]);
    var config :- ConfigPath(env, home);
    var stateRoot :- GivenPath(env.xdgState, home + [".local", "state"]);
    var data, cache := dataRoot + ["interbase"], cacheRoot + ["interbase"];
    Ok(Paths(home, data, cache, config, stateRoot + ["interbase"], host.tmpdir + ["interbase"], cache + ["bin"], data + ["log"]))
  }

  /** `joinFile` for a name that is one segment: names that start with two dots look like an escape. */
  function JoinFile(parent: Path, name: string): Result<Path>
  {
    if ".." <= name then Err(SandboxEscape) else Ok(parent + [name])
  }

  function DatabaseTarget(paths: Paths, override_: Option<string>): Result<Database>
  {
    var text := Given(override_);
    if text.None? then Ok(Channel("local", paths.data + ["interbase-local.db"]))
    else if text.value == ":memory:" then Ok(Memory)
    else if Absolute(text.value) then Ok(File(Resolve(text.value, [])))
    else if '/' in text.value || '\\' in text.value || text.value == "." || text.value == ".." then Err(InvalidDatabase)
    else
      var path :- JoinFile(paths.data, text.value);
      Ok(File(path))
  }

  function LaunchdPolicy(paths: Paths, env: Env): Result<Launchd>
  {
    if env.launchdDisabled == Some("1") then Ok(Disabled)
    else
      var launchAgents :- GivenPath(env.launchAgentsDir, paths.home + ["Library", "LaunchAgents"]);
      Ok(Enabled(launchAgents, paths.log + ["launchd.log"]))
  }

  function TestPaths(root: Path): Paths
  {
    Paths(root + ["home"], root + ["share", "interbase"], root + ["cache", "interbase"], root + ["config", "interbase"],
          root + ["state", "interbase"], root + ["tmp"], root + ["cache", "interbase", "bin"], root + ["share", "interbase", "log"])
  }

  predicate AllAllowed(p: Paths, root: Path, host: Host)
  {
    host.allowed(root, p.home) && host.allowed(root, p.data) && host.allowed(root, p.cache) && host.allowed(root, p.config) &&
    host.allowed(root, p.state) && host.allowed(root, p.tmp) && host.allowed(root, p.bin) && host.allowed(root, p.log)
  }

  /** `createTestRuntimeContext` for a non-blank root. */
  function CreateTest(root: string, host: Host): Result<Context>
  {
    var sandbox :- AbsolutePath(root);
    if AllAllowed(TestPaths(sandbox), sandbox, host) then Ok(Context(TestPaths(sandbox), Test(sandbox), Memory, Disabled))
    else Err(SandboxEscape)
  }

  function ParseTest(root: string, env: Env, host: Host): Result<Context>
  {
    var context :- CreateTest(root, host);
    var override_ := Given(env.configDir);
    if override_.None? then Ok(context)
    else
      var config :- AbsolutePath(override_.value);
      if host.allowed(context.access.sandbox, config) then Ok(context.(paths := context.paths.(config := config)))
      else Err(SandboxEscape)
  }

  function ParseProduction(env: Env, host: Host): Result<Context>
  {
    var paths :- ProductionPaths(env, host);
    var database :- DatabaseTarget(paths, env.db);
    var launchd :- LaunchdPolicy(paths, env);
    Ok(Context(paths, Production, database, launchd))
  }

  /** `parseCliRuntimeEnvironment`. */
  function Parse(env: Env, host: Host): Result<Context>
  {
    var root := Given(env.sandboxRoot);
    if root.Some? then ParseTest(root.value, env, host) else ParseProduction(env, host)
  }

  /** `subprocessEnvForCliRuntimeContext`. */
  function SubprocessEnv(c: Context): Env
  {
    Env(Some(Show(c.paths.home)), Some(Show(Parent(c.paths.data))), Some(Show(Parent(c.paths.cache))),
        Some(Show(Parent(c.paths.config))), Some(Show(Parent(c.paths.state))),
        if c.access.Test? then Some(Show(c.access.sandbox)) else None,
        match c.database case Memory => Some(":memory:") case File(path) => Some(Show(path)) case Channel(_, _) => None,
        Some(Show(c.paths.config)),
        if c.launchd.Enabled? then Some(Show(c.launchd.launchAgents)) else None,
        if c.launchd.Disabled? then Some("1") else None)
  }

  // ---------------------------------------------------------------- printed paths

  lemma {:induction false} WalkResolved(base: Path, p: Path)
    requires Resolved(p)
    ensures Walk(base, p) == base + p
    decreases p
  {
    if p != [] {
      assert Segment(p[0]);
      WalkResolved(base + [p[0]], p[1..]);
      assert base + [p[0]] + p[1..] == base + p;
    } else {
      assert base + p == base;
    }
  }

  lemma {:induction false} WalkGivesResolved(base: Path, segments: seq<string>)
    requires Resolved(base) && forall s :: s in segments ==> '/' !in s
    ensures Resolved(Walk(base, segments))
    decreases segments
  {
    if segments != [] {
      WalkGivesResolved(Into(base, segments[0]), segments[1..]);
    }
  }

  lemma ResolveGivesResolved(text: string, cwd: Path)
    requires Resolved(cwd)
    ensures Resolved(Resolve(text, cwd))
  {
    WalkGivesResolved(if Absolute(text) then [] else cwd, Split(text, '/'));
  }

  /** A printed path is absolute text, and resolving it gives the path back. */
  lemma ResolveShow(p: Path, cwd: Path)
    requires Resolved(p)
    ensures Absolute(Show(p)) && Resolve(Show(p), cwd) == p
  {
    if p == [] {
      SplitJoin(["", ""], '/');
      assert Join(["", ""], '/') == "/" by {
        assert ["", ""][1..] == [""];
      }
      assert Walk([], ["", ""]) == Walk([], ["", ""][1..]) == Walk([], [""]) == Walk([], [""][1..]) == [];
    } else {
      var parts := [""] + p;
      assert parts[1..] == p;
      SplitJoin(parts, '/');
      assert Absolute(Show(p));
      WalkResolved([], p);
      assert [] + p == p;
    }
  }

  function Size(segments: seq<string>): nat
  {
    if segments == [] then 0 else |segments[0]| + 1 + Size(segments[1..])
  }

  lemma {:induction false} SizeSplits(a: seq<string>, b: seq<string>)
    ensures Size(a + b) == Size(a) + Size(b)
  {
    if a == [] {
      assert a + b == b;
    } else {
      assert (a + b)[1..] == a[1..] + b;
      SizeSplits(a[1..], b);
    }
  }

  lemma {:induction false} JoinSize(parts: seq<string>, sep: char)
    requires parts != []
    ensures |Join(parts, sep)| == Size(parts) - 1
  {
    if |parts| > 1 {
      JoinSize(parts[1..], sep);
    } else {
      assert Size(parts[1..]) == 0;
    }
  }

  lemma {:induction false} WalkShrinks(base: Path, segments: seq<string>)
    ensures Size(Walk(base, segments)) <= Size(base) + Size(segments)
    decreases segments
  {
    if segments != [] {
      var next := Into(base, segments[0]);
      WalkShrinks(next, segments[1..]);
      SizeSplits(base, [segments[0]]);
      if base != [] {
        assert base == base[..|base| - 1] + [base[|base| - 1]];
        SizeSplits(base[..|base| - 1], [base[|base| - 1]]);
      }
      assert Size([segments[0]]) == |segments[0]| + 1;
      assert Size(next) <= Size(base) + |segments[0]| + 1;
    }
  }

  /** Resolving absolute text never makes it longer. */
  lemma ResolveShrinks(text: string, cwd: Path)
    requires Absolute(text)
    ensures |Show(Resolve(text, cwd))| <= |text|
  {
    var parts := Split(text, '/');
    JoinSize(parts, '/');
    assert parts[0] == "";
    assert Size(parts) == 1 + Size(parts[1..]);
    WalkShrinks([], parts[1..]);
    var p := Resolve(text, cwd);
    assert p == Walk([], parts[1..]);
    if p != [] {
      JoinSize([""] + p, '/');
      assert ([""] + p)[1..] == p;
    }
  }

  /** The printed path does not end in white space. */
  predicate EndsClean(p: Path)
  {
    var text := Show(p);
    text != "" && !Whitespace(text[|text| - 1])
  }

  /** A printed path read through a trimmed variable comes back exactly when it does not end in white space. */
  lemma ReadBack(p: Path, cwd: Path)
    requires Resolved(p)
    ensures var text := Given(Some(Show(p)));
      text.Some? && Absolute(text.value) && Resolve(text.value, cwd) == Resolve(text.value, []) &&
      (Resolve(text.value, cwd) == p <==> EndsClean(p))
  {
    ResolveShow(p, cwd);
    var text := Show(p);
    assert !Whitespace('/');
    assert TrimStart(text) == text;
    var trimmed := Trim(text);
    assert trimmed == TrimEnd(text);
    assert text[0] in text;
    assert trimmed != "" && trimmed[0] == '/';
    if !EndsClean(p) {
      assert trimmed != text;
      ResolveShrinks(trimmed, cwd);
      assert |trimmed| < |text|;
    }
  }

  // ---------------------------------------------------------------- round trip

  ghost predicate Under(p: Path, name: string)
  {
    p != [] && p[|p| - 1] == name && Resolved(Parent(p))
  }

  /** What every context parsed in production mode looks like. */
  ghost predicate ProductionShape(c: Context, tmpdir: Path)
  {
    var p := c.paths;
    c.access.Production? && Resolved(p.home) && Resolved(p.config) &&
    Under(p.data, "interbase") && Under(p.cache, "interbase") && Under(p.state, "interbase") &&
    p.tmp == tmpdir + ["interbase"] && p.bin == p.cache + ["bin"] && p.log == p.data + ["log"] &&
    (c.database.File? ==> Resolved(c.database.path)) &&
    (c.database.Channel? ==> c.database == Channel("local", p.data + ["interbase-local.db"])) &&
    (c.launchd.Enabled? ==> Resolved(c.launchd.launchAgents) && c.launchd.logFile == p.log + ["launchd.log"])
  }

  lemma GivenPathResolved(variable: Option<string>, fallback: Path)
    requires Resolved(fallback)
    ensures var r := GivenPath(variable, fallback);
      r.Ok? ==> Resolved(r.value) && Under(r.value + ["interbase"], "interbase") && Resolved(r.value + ["interbase"])
  {
    var r := GivenPath(variable, fallback);
    if Given(variable).Some? {
      ResolveGivesResolved(Given(variable).value, []);
    }
    if r.Ok? {
      assert Parent(r.value + ["interbase"]) == r.value;
    }
  }

  lemma HomeFallbacks(home: Path)
    requires Resolved(home)
    ensures Resolved(home + [".local", "share"]) && Resolved(home + [".cache"]) && Resolved(home + [".config"])
    ensures Resolved(home + [".local", "state"]) && Resolved(home + ["Library", "LaunchAgents"])
  {
  }

  lemma ConfigResolved(env: Env, home: Path)
    requires Resolved(home)
    ensures ConfigPath(env, home).Ok? ==> Resolved(ConfigPath(env, home).value)
  {
    HomeFallbacks(home);
    GivenPathResolved(env.xdgConfig, home + [".config"]);
    if Given(env.configDir).Some? {
      ResolveGivesResolved(Given(env.configDir).value, []);
    }
  }

  lemma PathsShape(env: Env, host: Host)
    requires Resolved(host.cwd) && ProductionPaths(env, host).Ok?
    ensures var p := ProductionPaths(env, host).value;
      Resolved(p.home) && Resolved(p.config) &&
      Under(p.data, "interbase") && Under(p.cache, "interbase") && Under(p.state, "interbase") &&
      p.tmp == host.tmpdir + ["interbase"] && p.bin == p.cache + ["bin"] && p.log == p.data + ["log"]
  {
    var home := HomePath(env, host);
    ResolveGivesResolved(if Given(env.home).Some? then Given(env.home).value else host.homedir, host.cwd);
    HomeFallbacks(home);
    GivenPathResolved(env.xdgData, home + [".local", "share"]);
    GivenPathResolved(env.xdgCache, home + [".cache"]);
    GivenPathResolved(env.xdgState, home + [".local", "state"]);
    ConfigResolved(env, home);
  }

  lemma DatabaseShape(paths: Paths, override_: Option<string>)
    requires Resolved(paths.data) && DatabaseTarget(paths, override_).Ok?
    ensures var d := DatabaseTarget(paths, override_).value;
      (d.File? ==> Resolved(d.path)) && (d.Channel? ==> d == Channel("local", paths.data + ["interbase-local.db"]))
  {
    if Given(override_).Some? {
      ResolveGivesResolved(Given(override_).value, []);
    }
  }

  lemma UnderIsResolved(p: Path)
    requires Under(p, "interbase")
    ensures Resolved(p) && p == Parent(p) + ["interbase"]
  {
    assert p == Parent(p) + ["interbase"];
  }

  lemma ParsedShape(env: Env, host: Host)
    requires Resolved(host.cwd) && ParseProduction(env, host).Ok?
    ensures ProductionShape(ParseProduction(env, host).value, host.tmpdir)
  {
    PathsShape(env, host);
    var paths := ProductionPaths(env, host).value;
    UnderIsResolved(paths.data);
    DatabaseShape(paths, env.db);
    HomeFallbacks(paths.home);
    GivenPathResolved(env.launchAgentsDir, paths.home + ["Library", "LaunchAgents"]);
  }

  /** None of the paths a subprocess reads back ends in white space. */
  predicate Clean(c: Context)
  {
    EndsClean(c.paths.config) &&
    if c.access.Test? then EndsClean(c.access.sandbox)
    else
      EndsClean(c.paths.home) && EndsClean(Parent(c.paths.data)) && EndsClean(Parent(c.paths.cache)) &&
      EndsClean(Parent(c.paths.state)) && (c.database.File? ==> EndsClean(c.database.path)) &&
      (c.launchd.Enabled? ==> EndsClean(c.launchd.launchAgents))
  }

  /** The path that a printed path is read back as. */
  function Back(p: Path): Path { Resolve(Trim(Show(p)), []) }

  lemma ReadBackPath(p: Path, fallback: Path)
    requires Resolved(p)
    ensures Given(Some(Show(p))) == Some(Trim(Show(p))) && AbsolutePath(Trim(Show(p))) == Ok(Back(p))
    ensures GivenPath(Some(Show(p)), fallback) == Ok(Back(p))
    ensures Back(p) == p <==> EndsClean(p)
  {
    ReadBack(p, []);
  }

  lemma PathsReadBack(c: Context, host: Host)
    requires ProductionShape(c, host.tmpdir)
    ensures var p := c.paths;
      var data, cache := Back(Parent(p.data)) + ["interbase"], Back(Parent(p.cache)) + ["interbase"];
      ProductionPaths(SubprocessEnv(c), host) ==
      Ok(Paths(Back(p.home), data, cache, Back(p.config), Back(Parent(p.state)) + ["interbase"], p.tmp,
               cache + ["bin"], data + ["log"]))
  {
    var p := c.paths;
    ReadBack(p.home, host.cwd);
    ReadBackPath(Parent(p.data), Back(p.home) + [".local", "share"]);
    ReadBackPath(Parent(p.cache), Back(p.home) + [".cache"]);
    ReadBackPath(p.config, []);
    ReadBackPath(Parent(p.state), Back(p.home) + [".local", "state"]);
  }

  lemma DatabaseReadsBack(c: Context, paths: Paths, tmpdir: Path)
    requires ProductionShape(c, tmpdir)
    ensures DatabaseTarget(paths, SubprocessEnv(c).db) == Ok(
      match c.database case Memory => Memory case File(path) => File(Back(path))
      case Channel(channel, _) => Channel(channel, paths.data + ["interbase-local.db"]))
  {
    if c.database.File? {
      FileReadsBack(c.database.path, paths);
    } else if c.database.Memory? {
      TrimKeeps(":memory:");
    }
  }

  lemma FileReadsBack(path: Path, paths: Paths)
    requires Resolved(path)
    ensures DatabaseTarget(paths, Some(Show(path))) == Ok(File(Back(path)))
  {
    ReadBackPath(path, []);
    var text := Trim(Show(path));
    assert Absolute(text) && ":memory:"[0] == ':';
  }

  lemma TrimKeeps(text: string)
    requires text != "" && !Whitespace(text[0]) && !Whitespace(text[|text| - 1])
    ensures Trim(text) == text
  {
  }

  lemma LaunchdReadsBack(c: Context, paths: Paths, tmpdir: Path)
    requires ProductionShape(c, tmpdir)
    ensures LaunchdPolicy(paths, SubprocessEnv(c)) == Ok(
      if c.launchd.Disabled? then Disabled else Enabled(Back(c.launchd.launchAgents), paths.log + ["launchd.log"]))
  {
    if c.launchd.Enabled? {
      ReadBackPath(c.launchd.launchAgents, paths.home + ["Library", "LaunchAgents"]);
    }
  }

  lemma SameLast(a: Path, b: Path)
    requires Under(b, "interbase")
    ensures a + ["interbase"] == b <==> a == Parent(b)
  {
    UnderIsResolved(b);
    assert Parent(a + ["interbase"]) == a;
  }

  lemma ProductionRoundTrip(c: Context, host: Host)
    requires ProductionShape(c, host.tmpdir)
    ensures ParseProduction(SubprocessEnv(c), host) == Ok(c) <==> Clean(c)
  {
    var env, p := SubprocessEnv(c), c.paths;
    PathsReadBack(c, host);
    var paths := ProductionPaths(env, host).value;
    DatabaseReadsBack(c, paths, host.tmpdir);
    LaunchdReadsBack(c, paths, host.tmpdir);
    ReadBackPath(p.home, []);
    ReadBackPath(p.config, []);
    ReadBackPath(Parent(p.data), []);
    ReadBackPath(Parent(p.cache), []);
    ReadBackPath(Parent(p.state), []);
    SameLast(Back(Parent(p.data)), p.data);
    SameLast(Back(Parent(p.cache)), p.cache);
    SameLast(Back(Parent(p.state)), p.state);
    if c.database.File? {
      ReadBackPath(c.database.path, []);
    }
    if c.launchd.Enabled? {
      ReadBackPath(c.launchd.launchAgents, []);
    }
  }

  lemma TestConfigResolved(root: Path)
    requires Resolved(root)
    ensures Resolved(TestPaths(root).config)
  {
  }

  lemma TestRoundTrip(root: string, env: Env, host: Host, child: Host)
    requires child.allowed == host.allowed && ParseTest(root, env, host).Ok?
    ensures var c := ParseTest(root, env, host).value;
      c.access.Test? && Resolved(c.access.sandbox) &&
      (ParseTest(Trim(Show(c.access.sandbox)), SubprocessEnv(c), child) == Ok(c) <==> Clean(c))
  {
    var c := ParseTest(root, env, host).value;
    var sandbox := c.access.sandbox;
    ResolveGivesResolved(root, []);
    ReadBackPath(sandbox, []);
    TestConfigResolved(sandbox);
    if Given(env.configDir).Some? {
      ResolveGivesResolved(Given(env.configDir).value, []);
    }
    ReadBackPath(c.paths.config, []);
  }

  /**
   * A context parsed from any environment comes back from the environment of a subprocess, in any working directory
   * and with any home of its own, exactly when none of the paths it prints ends in white space.
   */
  lemma EnvironmentRoundTrip(env: Env, host: Host, child: Host)
    requires Resolved(host.cwd) && child.tmpdir == host.tmpdir && child.allowed == host.allowed
    requires Parse(env, host).Ok?
    ensures var c := Parse(env, host).value;
      Parse(SubprocessEnv(c), child) == Ok(c) <==> Clean(c)
  {
    var c := Parse(env, host).value;
    if Given(env.sandboxRoot).Some? {
      TestRoundTrip(Given(env.sandboxRoot).value, env, host, child);
      ReadBackPath(c.access.sandbox, []);
    } else {
      ParsedShape(env, host);
      ProductionRoundTrip(c, child);
    }
  }

  lemma {:induction false} WalkSplits(base: Path, a: seq<string>, b: seq<string>)
    ensures Walk(base, a + b) == Walk(Walk(base, a), b)
    decreases a
  {
    if a == [] {
      assert a + b == b;
    } else {
      assert (a + b)[1..] == a[1..] + b;
      WalkSplits(Into(base, a[0]), a[1..], b);
    }
  }

  /** Text that names a path by way of a child of it, so that it ends in dots. */
  function Detour(p: Path): string { Join([""] + p + ["b", ".."], '/') }

  lemma {:induction false} JoinEnds(parts: seq<string>, sep: char)
    requires parts != [] && parts[|parts| - 1] == ".."
    ensures var s := Join(parts, sep); s != "" && s[|s| - 1] == '.'
  {
    if |parts| > 1 {
      JoinEnds(parts[1..], sep);
    }
  }

  lemma WalkDetour(p: Path)
    requires Resolved(p)
    ensures Walk([], [""] + p + ["b", ".."]) == p
  {
    assert ([""] + p + ["b", ".."])[1..] == p + ["b", ".."];
    WalkSplits([], p, ["b", ".."]);
    WalkResolved([], p);
    assert [] + p == p && ["b", ".."][1..] == [".."] && [".."][1..] == [] && (p + ["b"])[..|p|] == p;
    assert Walk(p, ["b", ".."]) == Walk(p + ["b"], [".."]) == Walk(p, []);
  }

  lemma DetourIsGiven(p: Path)
    ensures Absolute(Detour(p)) && Given(Some(Detour(p))) == Some(Detour(p))
  {
    JoinEnds([""] + p + ["b", ".."], '/');
    assert Detour(p)[0] == '/' && !Whitespace('/') && !Whitespace('.');
    TrimKeeps(Detour(p));
  }

  lemma DetourResolves(p: Path, cwd: Path)
    requires Resolved(p)
    ensures Absolute(Detour(p)) && Resolve(Detour(p), cwd) == p && Given(Some(Detour(p))) == Some(Detour(p))
  {
    var parts := [""] + p + ["b", ".."];
    assert forall s :: s in parts ==> '/' !in s;
    SplitJoin(parts, '/');
    WalkDetour(p);
    DetourIsGiven(p);
  }

  /** Every path that prints with white space at its end is the home of some parsed context that does not come back. */
  lemma HomeDoesNotComeBack(p: Path, host: Host)
    requires Resolved(p) && !EndsClean(p) && Resolved(host.cwd)
    ensures var env := Env(Some(Detour(p)), None, None, None, None, None, None, None, None, None);
      Parse(env, host).Ok? && Parse(env, host).value.paths.home == p &&
      Parse(SubprocessEnv(Parse(env, host).value), host) != Parse(env, host)
  {
    var env := Env(Some(Detour(p)), None, None, None, None, None, None, None, None, None);
    DetourResolves(p, host.cwd);
    assert Parse(env, host).value.paths.home == p;
    EnvironmentRoundTrip(env, host, host);
  }

  /** So is `/a `, reached as `/a /b/..`. */
  lemma SpacedHomeDoesNotComeBack(host: Host)
    requires Resolved(host.cwd)
    ensures var env := Env(Some(Detour(["a "])), None, None, None, None, None, None, None, None, None);
      Parse(env, host).Ok? && Parse(SubprocessEnv(Parse(env, host).value), host) != Parse(env, host)
  {
    ShowOne("a ");
    HomeDoesNotComeBack(["a "], host);
  }

  lemma ShowOne(segment: string)
    ensures Show([segment]) == "/" + segment
  {
    var parts := [""] + [segment];
    assert parts[1..] == [segment];
    assert Join(parts, '/') == "" + ['/'] + Join([segment], '/');
  }

  // ---------------------------------------------------------------- where things lie

  /** An environment in which nothing is set. */
  const EMPTY := Env(None, None, None, None, None, None, None, None, None, None)

  /** A variable that holds only white space counts as not set. */
  lemma BlankIsUnset(text: string)
    requires Blank(text)
    ensures Given(Some(text)) == None
  {
    assert TrimStart(text) == "";
    assert TrimEnd("") == "";
  }

  /** With only a home set, every directory lies at its default place under it. */
  lemma DefaultPlaces(home: Path, host: Host)
    requires Resolved(home) && EndsClean(home)
    ensures Parse(EMPTY.(home := Some(Show(home))), host) == Ok(Context(
      Paths(home, home + [".local", "share"] + ["interbase"], home + [".cache"] + ["interbase"], home + [".config"] + ["interbase"],
            home + [".local", "state"] + ["interbase"], host.tmpdir + ["interbase"], home + [".cache"] + ["interbase"] + ["bin"],
            home + [".local", "share"] + ["interbase"] + ["log"]),
      Production,
      Channel("local", home + [".local", "share"] + ["interbase"] + ["interbase-local.db"]),
      Enabled(home + ["Library", "LaunchAgents"], home + [".local", "share"] + ["interbase"] + ["log"] + ["launchd.log"])))
  {
    ReadBack(home, host.cwd);
  }

  /** Without a home variable, or with a blank one, the operating system's home directory counts. */
  lemma SystemHome(env: Env, host: Host)
    requires env.home == None || (env.home.Some? && Blank(env.home.value))
    ensures HomePath(env, host) == Resolve(host.homedir, host.cwd)
  {
    if env.home.Some? {
      BlankIsUnset(env.home.value);
    }
  }

  /** Each directory variable puts its own directory in place, whatever the others are; the config variable wins over the root. */
  lemma VariablePlaces(env: Env, host: Host, p: Path)
    requires Resolved(p) && EndsClean(p) && ProductionPaths(env, host).Ok?
    ensures env.xdgData == Some(Show(p)) ==> ProductionPaths(env, host).value.data == p + ["interbase"]
    ensures env.xdgCache == Some(Show(p)) ==> ProductionPaths(env, host).value.cache == p + ["interbase"]
    ensures env.xdgState == Some(Show(p)) ==> ProductionPaths(env, host).value.state == p + ["interbase"]
    ensures env.configDir == Some(Show(p)) ==> ProductionPaths(env, host).value.config == p
    ensures env.xdgConfig == Some(Show(p)) && env.configDir == None ==>
      ProductionPaths(env, host).value.config == p + ["interbase"]
  {
    ReadBack(p, []);
  }

  /** One of the directory variables that count holds a text. */
  predicate Uses(env: Env, text: string)
  {
    Some(text) in {env.xdgData, env.xdgCache, env.xdgState, env.configDir} || (env.xdgConfig == Some(text) && env.configDir == None)
  }

  /** A directory variable with a relative path is refused. */
  lemma RelativeIsRefused(env: Env, host: Host, text: string)
    requires text != "" && text[0] != '/' && Given(Some(text)) == Some(text) && Uses(env, text)
    ensures ProductionPaths(env, host) == Err(RelativePath)
  {
  }

  /** Relative text is resolved from the working directory. */
  lemma RelativeResolves(cwd: Path, p: Path)
    requires Resolved(p) && p != []
    ensures Resolve(Join(p, '/'), cwd) == cwd + p
  {
    SplitJoin(p, '/');
    WalkResolved(cwd, p);
    JoinStarts(p);
  }

  lemma JoinStarts(p: Path)
    requires Resolved(p) && p != []
    ensures Join(p, '/') != "" && Join(p, '/')[0] != '/'
  {
    assert Segment(p[0]);
    assert p[0][0] in p[0];
  }

  // ---------------------------------------------------------------- database, launch agents, sandbox

  /** Without an override the database is the channel's; in memory, or at an absolute path, it is what the override says. */
  lemma DatabaseOverrides(paths: Paths, p: Path)
    requires Resolved(p) && EndsClean(p)
    ensures DatabaseTarget(paths, None) == Ok(Channel("local", paths.data + ["interbase-local.db"]))
    ensures DatabaseTarget(paths, Some(":memory:")) == Ok(Memory)
    ensures DatabaseTarget(paths, Some(Show(p))) == Ok(File(p))
  {
    TrimKeeps(":memory:");
    FileReadsBack(p, paths);
    ReadBackPath(p, []);
  }

  /** A plain file name lies in the data directory; a name that looks like an escape or holds a separator is refused. */
  lemma DatabaseNames(paths: Paths, name: string)
    requires Given(Some(name)) == Some(name) && name != "" && name[0] != '/' && name != ":memory:"
    ensures DatabaseTarget(paths, Some(name)) ==
      if '/' in name || '\\' in name || name == "." || name == ".." then Err(InvalidDatabase)
      else if ".." <= name then Err(SandboxEscape)
      else Ok(File(paths.data + [name]))
  {
  }

  /** Launch agents are disabled by exactly "1", and otherwise lie where the variable says or under the home directory. */
  lemma LaunchAgents(paths: Paths, env: Env, p: Path)
    requires Resolved(p) && EndsClean(p)
    ensures LaunchdPolicy(paths, env) == Ok(Disabled) <==> env.launchdDisabled == Some("1")
    ensures env.launchdDisabled != Some("1") && env.launchAgentsDir == None ==>
      LaunchdPolicy(paths, env) == Ok(Enabled(paths.home + ["Library", "LaunchAgents"], paths.log + ["launchd.log"]))
    ensures env.launchdDisabled != Some("1") && env.launchAgentsDir == Some(Show(p)) ==>
      LaunchdPolicy(paths, env) == Ok(Enabled(p, paths.log + ["launchd.log"]))
  {
    ReadBack(p, []);
  }

  /** The eight places of a sandbox. */
  function SandboxPlaces(root: Path): seq<Path>
  {
    [root + ["home"], root + ["share", "interbase"], root + ["cache", "interbase"], root + ["config", "interbase"],
     root + ["state", "interbase"], root + ["tmp"], root + ["cache", "interbase", "bin"], root + ["share", "interbase", "log"]]
  }

  /**
   * A sandbox is accepted exactly when each of its places is really inside it, and then has no database file, no launch
   * agents, and exactly these places.
   */
  lemma SandboxIsInside(root: Path, host: Host)
    requires Resolved(root) && EndsClean(root)
    ensures var parsed := Parse(EMPTY.(sandboxRoot := Some(Show(root))), host);
      var places := SandboxPlaces(root);
      (parsed.Ok? <==> forall i :: 0 <= i < |places| ==> host.allowed(root, places[i])) &&
      (parsed.Err? ==> parsed == Err(SandboxEscape)) &&
      (parsed.Ok? ==> parsed.value == Context(
        Paths(places[0], places[1], places[2], places[3], places[4], places[5], places[6], places[7]), Test(root), Memory, Disabled))
  {
    ReadBackPath(root, []);
    PlacesAllowed(root, host);
    PlacesAre(root);
  }

  lemma PlacesAre(root: Path)
    ensures var places := SandboxPlaces(root);
      TestPaths(root) == Paths(places[0], places[1], places[2], places[3], places[4], places[5], places[6], places[7])
  {
  }

  lemma PlacesAllowed(root: Path, host: Host)
    ensures AllAllowed(TestPaths(root), root, host) <==>
      forall i :: 0 <= i < |SandboxPlaces(root)| ==> host.allowed(root, SandboxPlaces(root)[i])
  {
    var places := SandboxPlaces(root);
    PlacesAre(root);
    if forall i :: 0 <= i < |places| ==> host.allowed(root, places[i]) {
      assert host.allowed(root, places[0]) && host.allowed(root, places[1]) && host.allowed(root, places[2]);
      assert host.allowed(root, places[3]) && host.allowed(root, places[4]) && host.allowed(root, places[5]);
      assert host.allowed(root, places[6]) && host.allowed(root, places[7]);
    }
  }

  /** In a sandbox the config variable is obeyed exactly when it names a place that is really inside. */
  lemma SandboxConfig(root: Path, p: Path, host: Host)
    requires Resolved(root) && EndsClean(root) && Resolved(p) && EndsClean(p)
    requires Parse(EMPTY.(sandboxRoot := Some(Show(root))), host).Ok?
    ensures var plain := Parse(EMPTY.(sandboxRoot := Some(Show(root))), host).value;
      Parse(EMPTY.(sandboxRoot := Some(Show(root)), configDir := Some(Show(p))), host) ==
      if host.allowed(root, p) then Ok(plain.(paths := plain.paths.(config := p))) else Err(SandboxEscape)
  {
    ReadBackPath(root, []);
    ReadBackPath(p, []);
  }
}
