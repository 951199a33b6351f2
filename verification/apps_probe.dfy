/**
  The installation probe: for every record, the first candidate path that
  exists becomes its installed path.

  The filesystem is the set of paths that exist. A path whose existence
  check fails for any reason (permissions, I/O) is simply not in the set.
*/
module Probe {
  import opened Options
  import opened AppPaths
  import opened Catalog

  /** Candidate `i` exists and no earlier candidate does. */
  ghost predicate IsFirstExisting(candidates: seq<Path>, existing: set<Path>, i: int)
  {
    && 0 <= i < |candidates|
    && candidates[i] in existing
    && forall j :: 0 <= j < i ==> candidates[j] !in existing
  }

  /**
    What the probe must record for a candidate list: nothing when no
    candidate exists, otherwise the earliest existing candidate.
  */
  ghost predicate ResolvesTo(candidates: seq<Path>, existing: set<Path>, found: Option<Path>)
  {
    match found
    case None => forall c :: c in candidates ==> c !in existing
    case Some(c) => exists i :: IsFirstExisting(candidates, existing, i) && candidates[i] == c
  }

  /** At most one result meets `ResolvesTo`, so it fully specifies the probe. */
  lemma ResolvesToUnique(candidates: seq<Path>, existing: set<Path>, a: Option<Path>, b: Option<Path>)
    requires ResolvesTo(candidates, existing, a) && ResolvesTo(candidates, existing, b)
    ensures a == b
  {
  }

  /** `candidates.iter().find(|path| path.exists()).cloned()`. */
  function FirstExisting(candidates: seq<Path>, existing: set<Path>): (r: Option<Path>)
    ensures ResolvesTo(candidates, existing, r)
  {
    if candidates == [] then None
    else if candidates[0] in existing then
      assert IsFirstExisting(candidates, existing, 0);
      Some(candidates[0])
    else
      var rest := FirstExisting(candidates[1..], existing);
      assert ResolvesTo(candidates, existing, rest) by {
        if rest.Some? {
          var i :| IsFirstExisting(candidates[1..], existing, i) && candidates[1..][i] == rest.value;
          assert IsFirstExisting(candidates, existing, i + 1);
        } else {
          assert forall c :: c in candidates ==> c == candidates[0] || c in candidates[1..];
        }
      }
      rest
  }

  /** The record `app` after its candidates have been probed. */
  function ProbeOne(app: AppCheck, existing: set<Path>): (r: AppCheck)
    ensures r.name == app.name && r.candidates == app.candidates
    ensures ResolvesTo(app.candidates, existing, r.installedPath)
  {
    app.(installedPath := FirstExisting(app.candidates, existing))
  }

  /**
    What `detect_installed_apps` leaves behind: the same records in the
    same order with the same names and candidates, each holding exactly the
    result the probe must record.
  */
  function Probed(apps: seq<AppCheck>, existing: set<Path>): (r: seq<AppCheck>)
    ensures |r| == |apps|
    ensures forall k :: 0 <= k < |r| ==> r[k].name == apps[k].name && r[k].candidates == apps[k].candidates
    ensures forall k :: 0 <= k < |r| ==> ResolvesTo(apps[k].candidates, existing, r[k].installedPath)
  {
    seq(|apps|, k requires 0 <= k < |apps| => ProbeOne(apps[k], existing))
  }

  /** Whatever path a record held before, probing overwrites it. */
  lemma ProbedIgnoresPriorResult(apps: seq<AppCheck>, other: seq<AppCheck>, existing: set<Path>)
    requires |apps| == |other|
    requires forall k :: 0 <= k < |apps| ==> apps[k].name == other[k].name && apps[k].candidates == other[k].candidates
    ensures Probed(apps, existing) == Probed(other, existing)
  {
  }

  /** Probing twice against the same filesystem is the same as probing once. */
  lemma ProbedIdempotent(apps: seq<AppCheck>, existing: set<Path>)
    ensures Probed(Probed(apps, existing), existing) == Probed(apps, existing)
  {
  }

  /** A record is found installed exactly when one of its candidates exists. */
  lemma ProbedInstalledIff(apps: seq<AppCheck>, existing: set<Path>, k: int)
    requires 0 <= k < |apps|
    ensures Probed(apps, existing)[k].installedPath.Some?
        <==> exists c :: c in apps[k].candidates && c in existing
  {
  }

  /** `detect_installed_apps`: probes every record of the slice in place. */
  method DetectInstalledApps(apps: array<AppCheck>, existing: set<Path>)
    modifies apps
    ensures apps[..] == Probed(old(apps[..]), existing)
    ensures forall k :: 0 <= k < apps.Length ==>
      && apps[k].name == old(apps[k].name)
      && apps[k].candidates == old(apps[k].candidates)
      && ResolvesTo(apps[k].candidates, existing, apps[k].installedPath)
  {
    for i := 0 to apps.Length
      invariant forall k :: 0 <= k < i ==> apps[k] == ProbeOne(old(apps[k]), existing)
      invariant forall k :: i <= k < apps.Length ==> apps[k] == old(apps[k])
    {
      apps[i] := apps[i].(installedPath := FirstExisting(apps[i].candidates, existing));
    }
  }
}
