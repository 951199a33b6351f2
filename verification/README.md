# Installed-applications probe, modelled in Dafny

The program reports which of nine desktop applications are installed on a
machine. Each application has a fixed, ordered list of candidate paths. The
paths are macOS-style: system-wide `/Applications/<bundle>` and per-user
`<home>/Applications/<bundle>`, and MacPorts is the single binary
`/opt/local/bin/port`. The program works in four steps:

1. It classifies the host operating system. The result only decides whether
   an advisory is written to stderr.
2. It builds the catalog of records. Each record has a name, its candidate
   paths and no installed path yet.
3. It probes every record in place. The first candidate that exists becomes
   the record's installed path.
4. It prints two sections, "Installed" (name and path) and "Not Installed"
   (name), each in catalog order.

The library crate beside it holds one function, a 32-bit `add`.

How the environment is modelled:

- A path is a sequence of components, as Rust's `Path::components` yields
  them: a Windows prefix, the root, `.`, `..` or a named component. Joining
  a fixed relative name is therefore append.
- The `HOME` variable is an `Option<Path>` parameter. The OS identifier is a
  string parameter.
- The filesystem is the set of paths that exist. A failing existence check is
  a path outside the set.

Modules:

- `Options`: the `Option` type.
- `AppPaths`: paths, the home directory and the per-user location.
- `Platform`: OS classification.
- `Catalog`: the records and the candidate lists.
- `Probe`: the first-match specification, and the in-place probe over an
  array of records.
- `Report`: the two sections and the line layout.
- `Scenarios`: the whole run on concrete situations.
- `Lib`: `add`.

## Model

| member | source | states |
|---|---|---|
| `AppPaths.Join` | containerisation/docker/apps/src/main.rs:148 | Joining a relative name keeps the base path as a prefix and adds exactly one component. |
| `AppPaths.HomeDir` | containerisation/docker/apps/src/main.rs:151-155 | The home directory is `HOME` when it is set and the root `/` when it is not. |
| `AppPaths.HomeAppPath` | containerisation/docker/apps/src/main.rs:147-149 | The per-user location is the home directory followed by `Applications` and the name. With `HOME` unset it is `/Applications/<name>`. |
| `AppPaths.SystemAppPath` | containerisation/docker/apps/src/main.rs:85 | The system-wide location `/Applications/<bundle>`: the root, then `Applications`, then the bundle name. |
| `Platform.DetectOperatingSystem` | containerisation/docker/apps/src/main.rs:36-43 | Each of `Mac`, `Windows` and `Linux` is returned if and only if the identifier is exactly `macos`, `windows` or `linux` respectively. `Other` is returned if and only if the identifier is none of the three. |
| `Catalog.NewAppCheck` | containerisation/docker/apps/src/main.rs:19-27 | A new record keeps its name and candidates and has no installed path. |
| `Catalog.BitwardenCandidates` | containerisation/docker/apps/src/main.rs:83-88 | First the system-wide `Bitwarden.app`, then the per-user one. |
| `Catalog.ChromeCandidates` | containerisation/docker/apps/src/main.rs:90-97 | The two Chrome bundles system-wide first, in order, then the same two per-user. |
| `Catalog.FirefoxCandidates` | containerisation/docker/apps/src/main.rs:99-106 | The two Firefox bundles system-wide first, in order, then the same two per-user. |
| `Catalog.MacPortsCandidates` | containerisation/docker/apps/src/main.rs:108-110 | The only candidate is `/opt/local/bin/port`. It is neither a system-wide nor a per-user bundle location. |
| `Catalog.OllamaCandidates` | containerisation/docker/apps/src/main.rs:112-117 | First the system-wide `Ollama.app`, then the per-user one. |
| `Catalog.RancherDesktopCandidates` | containerisation/docker/apps/src/main.rs:119-124 | First the system-wide `Rancher Desktop.app`, then the per-user one. |
| `Catalog.SafariCandidates` | containerisation/docker/apps/src/main.rs:126-131 | First the system-wide `Safari.app`, then the per-user one. |
| `Catalog.VisualStudioCodeCandidates` | containerisation/docker/apps/src/main.rs:133-138 | First the system-wide `Visual Studio Code.app`, then the per-user one. |
| `Catalog.WhatsAppCandidates` | containerisation/docker/apps/src/main.rs:140-145 | First the system-wide `WhatsApp.app`, then the per-user one. |
| `Catalog.BuildApps` | containerisation/docker/apps/src/main.rs:45-61 | Exactly nine records, named Bitwarden, Chrome, Firefox, MacPorts, Ollama, Rancher Desktop, Safari, Visual Studio Code and WhatsApp, in that order. The names are pairwise distinct. No record has an installed path. Every record has 1 to 4 candidates. MacPorts has only `/opt/local/bin/port`. Which candidates the other records carry is stated by `Catalog.BuildAppsBundles`. |
| `Catalog.BuildAppsBundles` | containerisation/docker/apps/src/main.rs:50-60 | Every record except MacPorts carries exactly the candidates of its own bundles (Chrome and Firefox two each, the rest one). Each bundle comes first at `/Applications/<bundle>`, in the listed order, and then at `<home>/Applications/<bundle>`, in the same order. |
| `Catalog.BuildAppsIgnoresPlatform` | containerisation/docker/apps/src/main.rs:45-48 | The catalog is the same for every platform. The platform only decides the stderr advisory. |
| `Probe.FirstExisting` | containerisation/docker/apps/src/main.rs:65 | The result is `None` exactly when no candidate exists. Otherwise it is the candidate at an index that exists, with no existing candidate before that index. |
| `Probe.ResolvesToUnique` | containerisation/docker/apps/src/main.rs:65 | At most one result satisfies the first-match specification, so the specification determines the probe's result. |
| `Probe.ProbeOne` | containerisation/docker/apps/src/main.rs:65 | One record after probing: same name and candidates, installed path set to the first-match result for its own candidates. |
| `Probe.Probed` | containerisation/docker/apps/src/main.rs:63-67 | After probing, the records keep their number, order, names and candidates. Each record's installed path satisfies the first-match specification for its own candidates. |
| `Probe.ProbedIgnoresPriorResult` | containerisation/docker/apps/src/main.rs:65 | The installed path a record held before probing has no effect on the result. |
| `Probe.ProbedIdempotent` | containerisation/docker/apps/src/main.rs:63-67 | Probing twice against the same filesystem gives the same records as probing once. |
| `Probe.ProbedInstalledIff` | containerisation/docker/apps/src/main.rs:63-67 | A record ends up with a path if and only if one of its candidates exists. |
| `Probe.DetectInstalledApps` | containerisation/docker/apps/src/main.rs:63-67 | The array is updated in place. Its new contents are exactly the probed records of its old contents. Every record keeps its name and candidates, and its installed path satisfies the first-match specification. |
| `Report.InstalledSection` | containerisation/docker/apps/src/main.rs:71-75 | The "Installed" section is no longer than the record list. Its contents and order are stated by the section lemmas below. |
| `Report.NotInstalledSection` | containerisation/docker/apps/src/main.rs:78-80 | The "Not Installed" section is no longer than the record list. Its contents and order are stated by the section lemmas below. |
| `Report.PrintReport` | containerisation/docker/apps/src/main.rs:69-81 | The two sections together have exactly one line per record. |
| `Report.SectionsPartition` | containerisation/docker/apps/src/main.rs:69-81 | The sizes of the two sections add up to the number of records. |
| `Report.SectionsConcat` | containerisation/docker/apps/src/main.rs:71 | Both sections are order-preserving filters: the section of a concatenation is the concatenation of the sections. |
| `Report.InstalledSectionMembers` | containerisation/docker/apps/src/main.rs:71-75 | A (name, path) pair is in "Installed" if and only if some record has that name and holds that path. |
| `Report.NotInstalledSectionMembers` | containerisation/docker/apps/src/main.rs:78-80 | A name is in "Not Installed" if and only if some record with that name holds no path. |
| `Report.InstalledSectionAt` | containerisation/docker/apps/src/main.rs:71-75 | A record with a path appears in "Installed", with its own name and path, at the position equal to the length of the "Installed" section of the records before it. |
| `Report.InstalledSectionKeepsOrder` | containerisation/docker/apps/src/main.rs:71-75 | Of two records with a path, the one earlier in the catalog appears earlier in "Installed". |
| `Report.NotInstalledSectionAt` | containerisation/docker/apps/src/main.rs:78-80 | A record without a path appears in "Not Installed", with its own name, at the position equal to the length of the "Not Installed" section of the records before it. |
| `Report.NotInstalledSectionKeepsOrder` | containerisation/docker/apps/src/main.rs:78-80 | Of two records without a path, the one earlier in the catalog appears earlier in "Not Installed". |
| `Report.NoNameInBothSections` | containerisation/docker/apps/src/main.rs:69-81 | When names are distinct, as they are in the catalog, no application is listed in both sections. |
| `Report.PadRight` | containerisation/docker/apps/src/main.rs:73 | The text is left-aligned and padded with spaces to the field width. A longer text is kept whole and is not truncated. |
| `Report.InstalledLine` | containerisation/docker/apps/src/main.rs:73 | An "Installed" line starts with the name. Spaces follow it up to column 24, or up to the end of a longer name, plus one separator space. Then comes the path text, padded with spaces to 16 characters; a longer path text is kept whole. |
| `Report.NotInstalledLine` | containerisation/docker/apps/src/main.rs:79 | A "Not Installed" line is exactly max(24, length of the name) characters: the name followed by spaces. A name of 24 or more characters is the line itself. |
| `Scenarios.Run` | containerisation/docker/apps/src/main.rs:29-34 | The whole run always reports nine applications across the two sections. |
| `Scenarios.PerUserInstallFound` | containerisation/docker/apps/src/main.rs:83-88 | With `HOME=/Users/alice`, if only `/Users/alice/Applications/Bitwarden.app` exists among Bitwarden's candidates, Bitwarden is reported installed at that path. |
| `Scenarios.NothingInstalled` | containerisation/docker/apps/src/main.rs:45-81 | If no candidate exists, "Installed" is empty and "Not Installed" lists all nine names in catalog order. |
| `Scenarios.AllMissingSections` | containerisation/docker/apps/src/main.rs:69-81 | When no record holds a path, "Installed" is empty and "Not Installed" is every name, in order. |
| `Scenarios.MacPortsFound` | containerisation/docker/apps/src/main.rs:108-110 | If `/opt/local/bin/port` exists, MacPorts is reported installed at that path. |
| `Lib.Add` | src/lib.rs:1-3 | The result is the mathematical sum of the arguments, whenever that sum fits in `i32`. |
| `Lib.AddsOneAndOne` | src/lib.rs:10-12 | `add(1, 1) == 2`. |
| `Lib.AddsNegativeAndPositive` | src/lib.rs:15-17 | `add(-1, 2) == 1`. |
| `Lib.AddCommutes` | src/lib.rs:2 | Addition is commutative within the non-overflowing range. |
| `Lib.AddZeroIsIdentity` | src/lib.rs:2 | Adding 0 gives back the argument. |

## Left out

- The stderr advisory for non-macOS hosts (main.rs:46-48) is left out because it is output only. `Catalog.BuildApps` keeps the platform argument, and `Catalog.BuildAppsIgnoresPlatform` states that it does not affect the catalog.
- The ANSI-coloured section headers, the blank line between the sections and the `println!` calls themselves (main.rs:70, 77) are left out because they are output only. The report is the two returned sections, and the line layout is given by `Report.InstalledLine` and `Report.NotInstalledLine`.
- `Report.InstalledLine` takes the path already rendered as text. `Path::display` (main.rs:73) is not modelled.
- Real filesystem access (`Path::exists`, main.rs:65) is replaced by a set of existing paths. A failing check is a path outside the set.
- `env::consts::OS` (main.rs:37) and `env::var_os("HOME")` (main.rs:152) are parameters. `HOME` is given already split into path components (prefix, root, `.`, `..`, named).
- A `HOME` that is not valid UTF-8 cannot be expressed, because component names are Dafny strings. Rust's `OsString` accepts it.
- `PathBuf::from` on the literal candidate strings is written directly as component sequences. General `PathBuf::join` semantics are not modelled: an absolute argument replacing the base, separators and platform rules. Every joined component in the program is a fixed relative name.
- `Lib.Add`: requires that the sum fits in `i32`. Rust's `+` panics on overflow in debug builds and wraps in release builds, depending on build configuration, and neither behaviour is modelled.
