/**
  The fixed catalog of applications and their candidate install paths.

  Every candidate is a macOS-style location whatever the host platform;
  the platform only decides whether an advisory is written to stderr,
  which this model leaves out.
*/
module Catalog {
  import opened Options
  import opened AppPaths
  import opened Platform

  /** One application to look for, and where it was found (if probed). */
  datatype AppCheck = AppCheck(name: string, candidates: seq<Path>, installedPath: Option<Path>)

  /** `AppCheck::new`: a record that has not been probed yet. */
  function NewAppCheck(name: string, candidates: seq<Path>): (r: AppCheck)
    ensures r.name == name && r.candidates == candidates
    ensures r.installedPath == None
  {
    AppCheck(name, candidates, None)
  }

  /**
    The candidate layout shared by the bundle applications: every bundle
    in its system-wide location `/Applications/<bundle>` first, in the
    listed order, then every bundle in the per-user location
    `<home>/Applications/<bundle>`, in the same order.
  */
  ghost predicate SystemThenUser(r: seq<Path>, home: Option<Path>, bundles: seq<string>)
  {
    && |r| == 2 * |bundles|
    && (forall k :: 0 <= k < |bundles| ==> r[k] == SystemAppPath(bundles[k]))
    && (forall k :: 0 <= k < |bundles| ==> r[|bundles| + k] == HomeAppPath(home, bundles[k]))
  }

  function BitwardenCandidates(home: Option<Path>): (r: seq<Path>)
    ensures SystemThenUser(r, home, ["Bitwarden.app"])
  {
    [
      SystemAppPath("Bitwarden.app"),
      HomeAppPath(home, "Bitwarden.app")
    ]
  }

  function ChromeCandidates(home: Option<Path>): (r: seq<Path>)
    ensures SystemThenUser(r, home, ["Google Chrome.app", "Google Chrome Dev.app"])
  {
    [
      SystemAppPath("Google Chrome.app"),
      SystemAppPath("Google Chrome Dev.app"),
      HomeAppPath(home, "Google Chrome.app"),
      HomeAppPath(home, "Google Chrome Dev.app")
    ]
  }

  function FirefoxCandidates(home: Option<Path>): (r: seq<Path>)
    ensures SystemThenUser(r, home, ["Firefox.app", "Firefox Developer Edition.app"])
  {
    [
      SystemAppPath("Firefox.app"),
      SystemAppPath("Firefox Developer Edition.app"),
      HomeAppPath(home, "Firefox.app"),
      HomeAppPath(home, "Firefox Developer Edition.app")
    ]
  }

  /** `/opt/local/bin/port`, the MacPorts command-line tool. */
  const PortBinary: Path := [RootDir, Normal("opt"), Normal("local"), Normal("bin"), Normal("port")]

  /** MacPorts is not a bundle: its only candidate is a binary, with no per-user variant. */
  function MacPortsCandidates(): (r: seq<Path>)
    ensures |r| == 1 && r[0] == PortBinary
    ensures forall bundle :: r[0] != SystemAppPath(bundle)
    ensures forall home, bundle :: r[0] != HomeAppPath(home, bundle)
  {
    [PortBinary]
  }

  function OllamaCandidates(home: Option<Path>): (r: seq<Path>)
    ensures SystemThenUser(r, home, ["Ollama.app"])
  {
    [
      SystemAppPath("Ollama.app"),
      HomeAppPath(home, "Ollama.app")
    ]
  }

  function RancherDesktopCandidates(home: Option<Path>): (r: seq<Path>)
    ensures SystemThenUser(r, home, ["Rancher Desktop.app"])
  {
    [
      SystemAppPath("Rancher Desktop.app"),
      HomeAppPath(home, "Rancher Desktop.app")
    ]
  }

  function SafariCandidates(home: Option<Path>): (r: seq<Path>)
    ensures SystemThenUser(r, home, ["Safari.app"])
  {
    [
      SystemAppPath("Safari.app"),
      HomeAppPath(home, "Safari.app")
    ]
  }

  function VisualStudioCodeCandidates(home: Option<Path>): (r: seq<Path>)
    ensures SystemThenUser(r, home, ["Visual Studio Code.app"])
  {
    [
      SystemAppPath("Visual Studio Code.app"),
      HomeAppPath(home, "Visual Studio Code.app")
    ]
  }

  function WhatsAppCandidates(home: Option<Path>): (r: seq<Path>)
    ensures SystemThenUser(r, home, ["WhatsApp.app"])
  {
    [
      SystemAppPath("WhatsApp.app"),
      HomeAppPath(home, "WhatsApp.app")
    ]
  }

  /** The display names of the catalog, in catalog order. */
  const CatalogNames: seq<string> := [
    "Bitwarden", "Chrome", "Firefox", "MacPorts", "Ollama",
    "Rancher Desktop", "Safari", "Visual Studio Code", "WhatsApp"
  ]

  /**
    The bundles each catalog entry looks for, in catalog order; MacPorts
    (index 3) has no bundle.
  */
  const CatalogBundles: seq<seq<string>> := [
    ["Bitwarden.app"],
    ["Google Chrome.app", "Google Chrome Dev.app"],
    ["Firefox.app", "Firefox Developer Edition.app"],
    [],
    ["Ollama.app"],
    ["Rancher Desktop.app"],
    ["Safari.app"],
    ["Visual Studio Code.app"],
    ["WhatsApp.app"]
  ]

  /**
    `build_apps`: the catalog. The platform argument does not take part in
    the result (it only triggers the stderr advisory, left out here).
  */
  function BuildApps(os: OperatingSystem, home: Option<Path>): (r: seq<AppCheck>)
    ensures |r| == |CatalogNames| == 9
    ensures forall i :: 0 <= i < |r| ==> r[i].name == CatalogNames[i]
    ensures forall i :: 0 <= i < |r| ==> r[i].installedPath == None
    ensures forall i :: 0 <= i < |r| ==> 1 <= |r[i].candidates| <= 4
    ensures forall i, j :: 0 <= i < j < |r| ==> r[i].name != r[j].name
    ensures r[3].candidates == [PortBinary]
  {
    [
      NewAppCheck("Bitwarden", BitwardenCandidates(home)),
      NewAppCheck("Chrome", ChromeCandidates(home)),
      NewAppCheck("Firefox", FirefoxCandidates(home)),
      NewAppCheck("MacPorts", MacPortsCandidates()),
      NewAppCheck("Ollama", OllamaCandidates(home)),
      NewAppCheck("Rancher Desktop", RancherDesktopCandidates(home)),
      NewAppCheck("Safari", SafariCandidates(home)),
      NewAppCheck("Visual Studio Code", VisualStudioCodeCandidates(home)),
      NewAppCheck("WhatsApp", WhatsAppCandidates(home))
    ]
  }

  /**
    Every record but MacPorts carries the candidates of its own bundles,
    system-wide first and then per-user.
  */
  lemma BuildAppsBundles(os: OperatingSystem, home: Option<Path>)
    ensures var r := BuildApps(os, home);
      forall i :: 0 <= i < |r| && i != 3 ==> SystemThenUser(r[i].candidates, home, CatalogBundles[i])
  {
  }

  /** The catalog is the same for every platform. */
  lemma BuildAppsIgnoresPlatform(os1: OperatingSystem, os2: OperatingSystem, home: Option<Path>)
    ensures BuildApps(os1, home) == BuildApps(os2, home)
  {
  }
}
