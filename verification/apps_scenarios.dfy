/** The whole run — build the catalog, probe it, report — on concrete situations. */
module Scenarios {
  import opened Options
  import opened AppPaths
  import opened Platform
  import opened Catalog
  import opened Probe
  import opened Report

  /** Both report sections the program produces for a given host, `HOME` and filesystem. */
  function Run(osId: string, home: Option<Path>, existing: set<Path>): (r: Sections)
    ensures |r.installed| + |r.notInstalled| == 9
  {
    PrintReport(Probed(BuildApps(DetectOperatingSystem(osId), home), existing))
  }

  /**
    `HOME=/Users/alice`, Bitwarden present only in Alice's own Applications
    folder: it is reported installed at that path.
  */
  lemma PerUserInstallFound(osId: string, existing: set<Path>)
    requires [RootDir, Normal("Users"), Normal("alice"), Normal("Applications"), Normal("Bitwarden.app")] in existing
    requires [RootDir, Normal("Applications"), Normal("Bitwarden.app")] !in existing
    ensures var home := Some([RootDir, Normal("Users"), Normal("alice")]);
      var alice := [RootDir, Normal("Users"), Normal("alice"), Normal("Applications"), Normal("Bitwarden.app")];
      Probed(BuildApps(DetectOperatingSystem(osId), home), existing)[0].installedPath == Some(alice)
      && ("Bitwarden", alice) in Run(osId, home, existing).installed
  {
    var home := Some([RootDir, Normal("Users"), Normal("alice")]);
    var alice := [RootDir, Normal("Users"), Normal("alice"), Normal("Applications"), Normal("Bitwarden.app")];
    var apps := Probed(BuildApps(DetectOperatingSystem(osId), home), existing);
    assert apps[0].candidates == BitwardenCandidates(home);
    assert apps[0].installedPath == Some(alice) by {
      assert HomeAppPath(home, "Bitwarden.app") == alice;
      assert IsFirstExisting(apps[0].candidates, existing, 1);
      ResolvesToUnique(apps[0].candidates, existing, apps[0].installedPath, Some(alice));
    }
    InstalledSectionMembers(apps, "Bitwarden", alice);
  }

  /** When no candidate of any application exists, every application is reported missing. */
  lemma NothingInstalled(osId: string, home: Option<Path>, existing: set<Path>)
    requires forall a, c :: a in BuildApps(Other, home) && c in a.candidates ==> c !in existing
    ensures Run(osId, home, existing).installed == []
    ensures Run(osId, home, existing).notInstalled == CatalogNames
  {
    var catalog := BuildApps(DetectOperatingSystem(osId), home);
    BuildAppsIgnoresPlatform(DetectOperatingSystem(osId), Other, home);
    var apps := Probed(catalog, existing);
    forall k | 0 <= k < |apps|
      ensures apps[k].installedPath == None
    {
      assert catalog[k] in catalog;
    }
    AllMissingSections(apps);
  }

  /** Sections of records none of which holds a path. */
  lemma {:induction false} AllMissingSections(apps: seq<AppCheck>)
    requires forall k :: 0 <= k < |apps| ==> apps[k].installedPath == None
    ensures InstalledSection(apps) == []
    ensures NotInstalledSection(apps) == seq(|apps|, k requires 0 <= k < |apps| => apps[k].name)
  {
    if apps != [] {
      AllMissingSections(apps[1..]);
    }
  }

  /** `/opt/local/bin/port` present: MacPorts is reported installed there. */
  lemma MacPortsFound(osId: string, home: Option<Path>, existing: set<Path>)
    requires PortBinary in existing
    ensures ("MacPorts", PortBinary) in Run(osId, home, existing).installed
  {
    var apps := Probed(BuildApps(DetectOperatingSystem(osId), home), existing);
    assert apps[3].installedPath == Some(PortBinary) by {
      assert IsFirstExisting(apps[3].candidates, existing, 0);
      ResolvesToUnique(apps[3].candidates, existing, apps[3].installedPath, Some(PortBinary));
    }
    InstalledSectionMembers(apps, "MacPorts", PortBinary);
  }
}
