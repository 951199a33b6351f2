/**
  Filesystem paths as the probe builds them.

  A path is the sequence of its components, as Rust's `Path::components`
  yields them: a Windows prefix, the root, `.`, `..` or a named component.
  Every component the program joins on is a fixed relative name, so `join`
  is append.
*/
module AppPaths {
  import opened Options

  datatype Component = Prefix(text: string) | RootDir | CurDir | ParentDir | Normal(name: string)

  type Path = seq<Component>

  /** `/`, the fallback home directory. */
  const Root: Path := [RootDir]

  /** `PathBuf::join` with a single relative component. */
  function Join(p: Path, name: string): (r: Path)
    ensures |r| == |p| + 1
    ensures r[..|p|] == p && r[|p|] == Normal(name)
  {
    p + [Normal(name)]
  }

  /** The home directory: `HOME` when it is set, the root `/` otherwise. */
  function HomeDir(home: Option<Path>): (r: Path)
    ensures home.Some? ==> r == home.value
    ensures home.None? ==> r == Root
  {
    match home
    case Some(h) => h
    case None => Root
  }

  /** `<home>/Applications/<appName>`, the per-user install location. */
  function HomeAppPath(home: Option<Path>, appName: string): (r: Path)
    ensures r == HomeDir(home) + [Normal("Applications"), Normal(appName)]
    ensures home.None? ==> r == [RootDir, Normal("Applications"), Normal(appName)]
  {
    Join(Join(HomeDir(home), "Applications"), appName)
  }

  /** `/Applications/<bundle>`, the system-wide install location. */
  function SystemAppPath(bundle: string): (r: Path)
    ensures |r| == 3 && r[0] == RootDir && r[2] == Normal(bundle)
    ensures r == HomeAppPath(None, bundle)
  {
    [RootDir, Normal("Applications"), Normal(bundle)]
  }
}
