/**
  The report: the records split into an "Installed" section (name and the
  path found) and a "Not Installed" section (name only), each in catalog
  order, and the fixed-width layout of their lines.
*/
module Report {
  import opened Options
  import opened AppPaths
  import opened Catalog

  /** The "Installed" section: every record that holds a path, with that path. */
  function InstalledSection(apps: seq<AppCheck>): (r: seq<(string, Path)>)
    ensures |r| <= |apps|
  {
    if apps == [] then []
    else match apps[0].installedPath
      case Some(p) => [(apps[0].name, p)] + InstalledSection(apps[1..])
      case None => InstalledSection(apps[1..])
  }

  /** The "Not Installed" section: the name of every record that holds no path. */
  function NotInstalledSection(apps: seq<AppCheck>): (r: seq<string>)
    ensures |r| <= |apps|
  {
    if apps == [] then []
    else match apps[0].installedPath
      case Some(_) => NotInstalledSection(apps[1..])
      case None => [apps[0].name] + NotInstalledSection(apps[1..])
  }

  /** The two sections `print_report` writes, as data. */
  datatype Sections = Sections(installed: seq<(string, Path)>, notInstalled: seq<string>)

  /** `print_report`, without the terminal rendering: the two sections in order. */
  function PrintReport(apps: seq<AppCheck>): (r: Sections)
    ensures |r.installed| + |r.notInstalled| == |apps|
  {
    SectionsPartition(apps);
    Sections(InstalledSection(apps), NotInstalledSection(apps))
  }

  /** Every record lands in exactly one section. */
  lemma {:induction false} SectionsPartition(apps: seq<AppCheck>)
    ensures |InstalledSection(apps)| + |NotInstalledSection(apps)| == |apps|
  {
    if apps != [] {
      SectionsPartition(apps[1..]);
    }
  }

  /** Both sections are filters: splitting the records splits the sections. */
  lemma {:induction false} SectionsConcat(a: seq<AppCheck>, b: seq<AppCheck>)
    ensures InstalledSection(a + b) == InstalledSection(a) + InstalledSection(b)
    ensures NotInstalledSection(a + b) == NotInstalledSection(a) + NotInstalledSection(b)
  {
    if a == [] {
      assert a + b == b;
    } else {
      assert (a + b)[0] == a[0] && (a + b)[1..] == a[1..] + b;
      SectionsConcat(a[1..], b);
    }
  }

  /** The "Installed" section holds exactly the pairs (name, path) of records holding a path. */
  lemma {:induction false} InstalledSectionMembers(apps: seq<AppCheck>, name: string, path: Path)
    ensures (name, path) in InstalledSection(apps)
        <==> exists k :: 0 <= k < |apps| && apps[k].name == name && apps[k].installedPath == Some(path)
  {
    if apps != [] {
      InstalledSectionMembers(apps[1..], name, path);
      if exists k :: 0 <= k < |apps| && apps[k].name == name && apps[k].installedPath == Some(path) {
        var k :| 0 <= k < |apps| && apps[k].name == name && apps[k].installedPath == Some(path);
        if k > 0 {
          assert apps[1..][k - 1] == apps[k];
        }
      }
    }
  }

  /** The "Not Installed" section holds exactly the names of records holding no path. */
  lemma {:induction false} NotInstalledSectionMembers(apps: seq<AppCheck>, name: string)
    ensures name in NotInstalledSection(apps)
        <==> exists k :: 0 <= k < |apps| && apps[k].name == name && apps[k].installedPath == None
  {
    if apps != [] {
      NotInstalledSectionMembers(apps[1..], name);
      if exists k :: 0 <= k < |apps| && apps[k].name == name && apps[k].installedPath == None {
        var k :| 0 <= k < |apps| && apps[k].name == name && apps[k].installedPath == None;
        if k > 0 {
          assert apps[1..][k - 1] == apps[k];
        }
      }
    }
  }

  /**
    Catalog order is kept: record `i` holding a path sits in the "Installed"
    section right after the entries of the records before it, and record
    `j` further down the catalog sits further down the section.
  */
  lemma InstalledSectionKeepsOrder(apps: seq<AppCheck>, i: int, j: int)
    requires 0 <= i < j < |apps|
    requires apps[i].installedPath.Some? && apps[j].installedPath.Some?
    ensures var pos, sec := |InstalledSection(apps[..i])|, InstalledSection(apps);
      pos < |InstalledSection(apps[..j])| < |sec|
      && sec[pos] == (apps[i].name, apps[i].installedPath.value)
      && sec[|InstalledSection(apps[..j])|] == (apps[j].name, apps[j].installedPath.value)
  {
    InstalledSectionAt(apps, i);
    InstalledSectionAt(apps, j);
    assert apps[..j] == apps[..i] + [apps[i]] + apps[i + 1..j];
    SectionsConcat(apps[..i] + [apps[i]], apps[i + 1..j]);
    SectionsConcat(apps[..i], [apps[i]]);
  }

  /** Where record `i` appears in the "Installed" section. */
  lemma InstalledSectionAt(apps: seq<AppCheck>, i: int)
    requires 0 <= i < |apps| && apps[i].installedPath.Some?
    ensures var pos := |InstalledSection(apps[..i])|;
      pos < |InstalledSection(apps)|
      && InstalledSection(apps)[pos] == (apps[i].name, apps[i].installedPath.value)
  {
    assert apps == apps[..i] + [apps[i]] + apps[i + 1..];
    SectionsConcat(apps[..i] + [apps[i]], apps[i + 1..]);
    SectionsConcat(apps[..i], [apps[i]]);
  }

  /** The same for the "Not Installed" section. */
  lemma NotInstalledSectionKeepsOrder(apps: seq<AppCheck>, i: int, j: int)
    requires 0 <= i < j < |apps|
    requires apps[i].installedPath.None? && apps[j].installedPath.None?
    ensures var pos, sec := |NotInstalledSection(apps[..i])|, NotInstalledSection(apps);
      pos < |NotInstalledSection(apps[..j])| < |sec|
      && sec[pos] == apps[i].name
      && sec[|NotInstalledSection(apps[..j])|] == apps[j].name
  {
    NotInstalledSectionAt(apps, i);
    NotInstalledSectionAt(apps, j);
    assert apps[..j] == apps[..i] + [apps[i]] + apps[i + 1..j];
    SectionsConcat(apps[..i] + [apps[i]], apps[i + 1..j]);
    SectionsConcat(apps[..i], [apps[i]]);
  }

  /** Where record `i` appears in the "Not Installed" section. */
  lemma NotInstalledSectionAt(apps: seq<AppCheck>, i: int)
    requires 0 <= i < |apps| && apps[i].installedPath.None?
    ensures var pos := |NotInstalledSection(apps[..i])|;
      pos < |NotInstalledSection(apps)| && NotInstalledSection(apps)[pos] == apps[i].name
  {
    assert apps == apps[..i] + [apps[i]] + apps[i + 1..];
    SectionsConcat(apps[..i] + [apps[i]], apps[i + 1..]);
    SectionsConcat(apps[..i], [apps[i]]);
  }

  /** With distinct names (as in the catalog), no application is listed in both sections. */
  lemma NoNameInBothSections(apps: seq<AppCheck>, name: string, path: Path)
    requires forall i, j :: 0 <= i < j < |apps| ==> apps[i].name != apps[j].name
    ensures !((name, path) in InstalledSection(apps) && name in NotInstalledSection(apps))
  {
    InstalledSectionMembers(apps, name, path);
    NotInstalledSectionMembers(apps, name);
  }

  /** `{:<width}`: left-aligns `s` in a field of `width` characters; a longer `s` is kept whole. */
  function PadRight(s: string, width: nat): (r: string)
    ensures |r| == if |s| < width then width else |s|
    ensures r[..|s|] == s
    ensures forall k :: |s| <= k < |r| ==> r[k] == ' '
  {
    if |s| < width then s + seq(width - |s|, _ => ' ') else s
  }

  /** Width of the name column. */
  const NameWidth: nat := 24

  /** Width of the path column. */
  const PathWidth: nat := 16

  /**
    `"{:<24} {:<16}"`: an "Installed" line, given the path as displayed
    (the rendering of a path as text is not part of this model).
  */
  function InstalledLine(name: string, shownPath: string): (r: string)
    ensures var col := if |name| < NameWidth then NameWidth else |name|;
      && |r| == col + 1 + (if |shownPath| < PathWidth then PathWidth else |shownPath|)
      && r[..|name|] == name
      && (forall k :: |name| <= k <= col ==> r[k] == ' ')
      && r[col + 1..col + 1 + |shownPath|] == shownPath
      && (forall k :: col + 1 + |shownPath| <= k < |r| ==> r[k] == ' ')
  {
    PadRight(name, NameWidth) + " " + PadRight(shownPath, PathWidth)
  }

  /** `"{:<24}"`: a "Not Installed" line. */
  function NotInstalledLine(name: string): (r: string)
    ensures |r| == if |name| < NameWidth then NameWidth else |name|
    ensures r[..|name|] == name
    ensures forall k :: |name| <= k < |r| ==> r[k] == ' '
    ensures |name| >= NameWidth ==> r == name
  {
    PadRight(name, NameWidth)
  }
}
