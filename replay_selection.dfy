/** Which replays the command-line tools work on. A replay argument is an absolute path, a game
    number or a file name inside `Replays`; without one, the `Replays` directory is scanned. The
    extractor then walks the list, honouring a `STOP` file; the metadata tool also derives each
    replay's `info.json` path from its leading game number. The directory listing, the set of
    existing output directories, the set of existing files and the `STOP` file are parameters. */
module ReplaySelection {
  import opened Wrappers
  import opened Strings
  import opened Seqs
  import opened ReplayNames

  const ReplaysDir := "Replays"

  /** `Path(p).is_absolute()` on a POSIX system. */
  predicate IsAbsolute(path: string) {
    |path| > 0 && path[0] == '/'
  }

  /** The path of a file listed in `Replays`. */
  function ReplayPath(name: string): string {
    ReplaysDir + "/" + name
  }

  function ReplayPaths(names: seq<string>): (paths: seq<string>)
    ensures |paths| == |names|
    ensures forall i :: 0 <= i < |names| ==> paths[i] == ReplayPath(names[i])
  {
    seq(|names|, i requires 0 <= i < |names| => ReplayPath(names[i]))
  }

  lemma ReplayPathsSnoc(names: seq<string>, name: string)
    ensures ReplayPaths(names + [name]) == ReplayPaths(names) + [ReplayPath(name)]
  {
  }

  /** A name the glob `*.SC2Replay` matches. */
  predicate IsReplayFile(name: string) {
    EndsWith(name, ReplayExtension)
  }

  /** A name the glob `<id>_*.SC2Replay` matches: the prefix and the extension do not overlap. */
  predicate MatchesNumberPattern(id: string, name: string) {
    |id| + 1 + |ReplayExtension| <= |name| && StartsWith(name, id + "_") && IsReplayFile(name)
  }

  function NumberMatches(id: string, names: seq<string>): seq<string> {
    Filter(names, (n: string) => MatchesNumberPattern(id, n))
  }

  /** The outcome of classifying one replay argument. */
  datatype Resolution =
    | Resolved(path: string)
    | NoReplaysDirectory         // a game number, but `Replays` is not a directory
    | NoMatch                    // a game number that no replay carries
    | MultipleMatches(count: nat)
    | InvalidIdentifier

  /** The classification of a replay argument, with the tests in the tools' order: absolute path,
      then all digits, then containing the replay extension. `listing` is the content of
      `Replays`, or None when it is not a directory. */
  function Resolve(id: string, listing: Option<seq<string>>): (r: Resolution)
    ensures IsAbsolute(id) ==> r == Resolved(Normalize(id))
    ensures !IsAbsolute(id) && IsDigits(id) ==>
              (r.Resolved? <==> listing.Some? && |NumberMatches(id, listing.value)| == 1)
    ensures !IsAbsolute(id) && IsDigits(id) && r.Resolved? ==>
              exists n :: n in listing.value && MatchesNumberPattern(id, n) && r.path == ReplayPath(n)
    ensures !IsAbsolute(id) && !IsDigits(id) ==>
              (r.Resolved? <==> Contains(id, ReplayExtension)) && (r.Resolved? ==> r.path == Normalize(ReplayPath(id)))
    ensures r.MultipleMatches? ==> r.count > 1
  {
    if IsAbsolute(id) then Resolved(Normalize(id))
    else if IsDigits(id) then
      match listing
      case None => NoReplaysDirectory
      case Some(names) =>
        var found := NumberMatches(id, names);
        if |found| == 1 then
          assert found[0] in found;
          Resolved(ReplayPath(found[0]))
        else if |found| == 0 then NoMatch
        else MultipleMatches(|found|)
    else if Contains(id, ReplayExtension) then Resolved(Normalize(ReplayPath(id)))
    else InvalidIdentifier
  }

  /** The same classification with the extension test before the digit test. */
  function ResolveExtensionFirst(id: string, listing: Option<seq<string>>): Resolution {
    if IsAbsolute(id) then Resolved(Normalize(id))
    else if Contains(id, ReplayExtension) then Resolved(Normalize(ReplayPath(id)))
    else if IsDigits(id) then
      match listing
      case None => NoReplaysDirectory
      case Some(names) =>
        var found := NumberMatches(id, names);
        if |found| == 1 then Resolved(ReplayPath(found[0]))
        else if |found| == 0 then NoMatch
        else MultipleMatches(|found|)
    else InvalidIdentifier
  }

  /** A game number never contains the extension, so the order of the two tests does not matter. */
  lemma ResolveTestOrder(id: string, listing: Option<seq<string>>)
    ensures Resolve(id, listing) == ResolveExtensionFirst(id, listing)
  {
    if IsDigits(id) {
      DigitsHaveNoDot(id, ReplayExtension);
    }
  }

  /** A replay found for a game number carries that number as its leading game number. */
  lemma ResolvedNumberIsGameNumber(id: string, names: seq<string>)
    requires !IsAbsolute(id) && IsDigits(id)
    requires Resolve(id, Some(names)).Resolved?
    ensures exists n :: n in names && Resolve(id, Some(names)).path == ReplayPath(n)
                     && LeadingGameNumber(n) == Some(id)
  {
    var n :| n in names && MatchesNumberPattern(id, n) && Resolve(id, Some(names)).path == ReplayPath(n);
    LeadingGameNumberIff(n, id);
  }

  /** An absolute argument names the file of its last kept component, whatever trailing '/',
      "/." or doubled separators it was written with. */
  lemma ResolvedAbsoluteName(id: string, listing: Option<seq<string>>)
    requires IsAbsolute(id) && PathParts(id) != []
    ensures Resolve(id, listing).Resolved?
    ensures BaseName(Resolve(id, listing).path) == PathParts(id)[|PathParts(id)| - 1]
  {
    NormalizeName(id);
  }

  /** The extractor's batch criterion: a replay file whose leading game number has no output
      directory yet. A file without a leading game number is never selected. */
  predicate IsNewReplay(preexisting: set<string>, name: string) {
    IsReplayFile(name) && LeadingGameNumber(name).Some? && LeadingGameNumber(name).value !in preexisting
  }

  function NewReplayNames(names: seq<string>, preexisting: set<string>): seq<string> {
    Filter(names, (n: string) => IsNewReplay(preexisting, n))
  }

  lemma NewReplayNamesSnoc(names: seq<string>, name: string, preexisting: set<string>)
    ensures NewReplayNames(names + [name], preexisting)
         == NewReplayNames(names, preexisting) + (if IsNewReplay(preexisting, name) then [name] else [])
  {
    assert (names + [name])[..|names|] == names;
  }

  /** The extractor's batch list: the loop over the replay files of `Replays` that keeps only new games. */
  method SelectNewReplays(names: seq<string>, preexisting: set<string>) returns (paths: seq<string>)
    ensures paths == ReplayPaths(NewReplayNames(names, preexisting))
  {
    paths := [];
    for i := 0 to |names|
      invariant paths == ReplayPaths(NewReplayNames(names[..i], preexisting))
    {
      var name := names[i];
      assert names[..i + 1] == names[..i] + [name];
      NewReplayNamesSnoc(names[..i], name, preexisting);
      ReplayPathsSnoc(NewReplayNames(names[..i], preexisting), name);
      var game := LeadingGameNumber(name);
      if IsReplayFile(name) && game.Some? && game.value !in preexisting {
        paths := paths + [ReplayPath(name)];
      }
    }
    assert names[..|names|] == names;
  }

  /** A listed replay is selected exactly when its game number `g` is not among the existing output
      directories. */
  lemma NewReplaySelected(names: seq<string>, preexisting: set<string>, name: string)
    ensures name in NewReplayNames(names, preexisting)
        <==> name in names && IsReplayFile(name)
             && exists g :: IsDigits(g) && StartsWith(name, g + "_") && g !in preexisting
  {
    var game := LeadingGameNumber(name);
    if game.Some? {
      LeadingGameNumberIff(name, game.value);
    }
    if exists g :: IsDigits(g) && StartsWith(name, g + "_") && g !in preexisting {
      var g :| IsDigits(g) && StartsWith(name, g + "_") && g !in preexisting;
      LeadingGameNumberIff(name, g);
    }
  }

  /** The metadata tool's batch list: every `*.SC2Replay` file in `Replays`. */
  function AllReplays(names: seq<string>): (paths: seq<string>)
    ensures forall p :: p in paths <==> exists n :: n in names && IsReplayFile(n) && p == ReplayPath(n)
  {
    var replays := Filter(names, IsReplayFile);
    assert forall n :: n in replays ==> ReplayPaths(replays)[IndexOf(replays, n)] == ReplayPath(n);
    ReplayPaths(replays)
  }

  function IndexOf(s: seq<string>, x: string): (i: nat)
    requires x in s
    ensures i < |s| && s[i] == x
  {
    if s[0] == x then 0 else 1 + IndexOf(s[1..], x)
  }

  datatype StartupError = ReplaysDirectoryMissing

  /** An argument that is absent or empty (falsy) selects batch mode. */
  predicate BatchMode(arg: Option<string>) {
    arg.None? || arg.value == ""
  }

  /** The replay list of one run. A single argument gives at most one replay; batch mode without
      a `Replays` directory ends the program; the extractor keeps only new games. */
  function SelectReplays(arg: Option<string>, listing: Option<seq<string>>, newOnly: Option<set<string>>)
    : (r: Result<seq<string>, StartupError>)
    ensures r.Err? <==> BatchMode(arg) && listing.None?
    ensures !BatchMode(arg) ==> r.Ok? && |r.value| <= 1
    ensures !BatchMode(arg) ==> (r.value != [] <==> Resolve(arg.value, listing).Resolved?)
    ensures !BatchMode(arg) && Resolve(arg.value, listing).Resolved? ==> r == Ok([Resolve(arg.value, listing).path])
    ensures BatchMode(arg) && listing.Some? && newOnly.Some? ==>
              r == Ok(ReplayPaths(NewReplayNames(listing.value, newOnly.value)))
    ensures BatchMode(arg) && listing.Some? && newOnly.None? ==> r == Ok(AllReplays(listing.value))
  {
    if !BatchMode(arg) then
      match Resolve(arg.value, listing)
      case Resolved(p) => Ok([p])
      case _ => Ok([])
    else if listing.None? then Err(ReplaysDirectoryMissing)
    else if newOnly.Some? then Ok(ReplayPaths(NewReplayNames(listing.value, newOnly.value)))
    else Ok(AllReplays(listing.value))
  }

  /** The number of replays the extractor's batch loop reaches before it meets the `STOP` file;
      `stopAt(i)` says whether the file exists when replay `i` is about to start. */
  function StopLimit(n: nat, stopAt: nat -> bool): (k: nat)
    ensures k <= n
    ensures forall i :: 0 <= i < k ==> !stopAt(i)
    ensures k < n ==> stopAt(k)
  {
    StopLimitFrom(0, n, stopAt)
  }

  function StopLimitFrom(i: nat, n: nat, stopAt: nat -> bool): (k: nat)
    requires i <= n
    ensures i <= k <= n
    ensures forall j :: i <= j < k ==> !stopAt(j)
    ensures k < n ==> stopAt(k)
    decreases n - i
  {
    if i == n || stopAt(i) then i else StopLimitFrom(i + 1, n, stopAt)
  }

  /** The paths that name an existing file (the others are logged and skipped). */
  function ExistingPaths(paths: seq<string>, files: set<string>): seq<string> {
    Filter(paths, (p: string) => p in files)
  }

  lemma ExistingPathsSnoc(paths: seq<string>, p: string, files: set<string>)
    ensures ExistingPaths(paths + [p], files)
         == ExistingPaths(paths, files) + (if p in files then [p] else [])
  {
    assert (paths + [p])[..|paths|] == paths;
  }

  /** The extractor's batch loop: `STOP` ends it before the next replay (the file is removed),
      a path that is not a file is skipped, and every other replay is extracted. */
  method RunBatch(paths: seq<string>, stopAt: nat -> bool, files: set<string>)
    returns (extracted: seq<string>, stopped: bool)
    ensures stopped <==> exists i :: 0 <= i < |paths| && stopAt(i)
    ensures extracted == ExistingPaths(paths[..StopLimit(|paths|, stopAt)], files)
  {
    extracted := [];
    stopped := false;
    var i := 0;
    while i < |paths|
      invariant 0 <= i <= |paths|
      invariant forall j :: 0 <= j < i ==> !stopAt(j)
      invariant extracted == ExistingPaths(paths[..i], files)
    {
      if stopAt(i) {
        stopped := true;
        break;
      }
      assert paths[..i + 1] == paths[..i] + [paths[i]];
      ExistingPathsSnoc(paths[..i], paths[i], files);
      if paths[i] in files {
        extracted := extracted + [paths[i]];
      }
      i := i + 1;
    }
    assert i == StopLimit(|paths|, stopAt);
  }

  /** `Output/<n>/<n>_info.json` for a file name that starts with a game number, unless
      `--no-file` was given; None means the metadata is printed instead. */
  function InfoJsonPath(name: string, noFile: bool): Option<string> {
    if noFile then None
    else match LeadingGameNumber(name)
      case Some(g) => Some(OutputDir(g) + "/" + g + "_info.json")
      case None => None
  }

  lemma InfoJsonPathIff(name: string, noFile: bool, path: string)
    ensures InfoJsonPath(name, noFile) == Some(path)
        <==> !noFile && exists g :: IsDigits(g) && StartsWith(name, g + "_")
                                    && path == OutputDir(g) + "/" + g + "_info.json"
  {
    var game := LeadingGameNumber(name);
    if game.Some? {
      LeadingGameNumberIff(name, game.value);
    }
    if !noFile && exists g :: IsDigits(g) && StartsWith(name, g + "_") && path == OutputDir(g) + "/" + g + "_info.json" {
      var g :| IsDigits(g) && StartsWith(name, g + "_") && path == OutputDir(g) + "/" + g + "_info.json";
      LeadingGameNumberIff(name, g);
    }
  }

  /** One call of `get_replay_info`: the replay and where its metadata goes. */
  datatype MetadataJob = MetadataJob(replay: string, output: Option<string>)

  function MetadataJobs(paths: seq<string>, noFile: bool): (jobs: seq<MetadataJob>)
    ensures |jobs| == |paths|
  {
    seq(|paths|, i requires 0 <= i < |paths| => MetadataJob(paths[i], InfoJsonPath(BaseName(paths[i]), noFile)))
  }

  /** One job per path, in order: a replay gets an info-file target exactly when `--no-file` is
      off and its file name starts with a game number, and the target lies in that game's
      output directory. */
  lemma MetadataJobTargets(paths: seq<string>, noFile: bool, i: nat)
    requires i < |paths|
    ensures MetadataJobs(paths, noFile)[i].replay == paths[i]
    ensures MetadataJobs(paths, noFile)[i].output.Some? <==>
              !noFile && LeadingGameNumber(BaseName(paths[i])).Some?
    ensures MetadataJobs(paths, noFile)[i].output.Some? ==>
              var g := LeadingGameNumber(BaseName(paths[i])).value;
              MetadataJobs(paths, noFile)[i].output.value == OutputDir(g) + "/" + g + "_info.json"
  {
  }

  /** One step of the metadata loop: an existing path appends its job, any other adds none. */
  lemma MetadataJobsStep(paths: seq<string>, i: nat, files: set<string>, noFile: bool)
    requires i < |paths|
    ensures MetadataJobs(ExistingPaths(paths[..i + 1], files), noFile)
         == MetadataJobs(ExistingPaths(paths[..i], files), noFile)
            + (if paths[i] in files then [MetadataJob(paths[i], InfoJsonPath(BaseName(paths[i]), noFile))] else [])
  {
    assert paths[..i + 1] == paths[..i] + [paths[i]];
    ExistingPathsSnoc(paths[..i], paths[i], files);
    if paths[i] in files {
      MetadataJobsSnoc(ExistingPaths(paths[..i], files), paths[i], noFile);
    } else {
      assert ExistingPaths(paths[..i + 1], files) == ExistingPaths(paths[..i], files) + [];
    }
  }

  /** Appending a path appends its job. */
  lemma MetadataJobsSnoc(paths: seq<string>, p: string, noFile: bool)
    ensures MetadataJobs(paths + [p], noFile)
         == MetadataJobs(paths, noFile) + [MetadataJob(p, InfoJsonPath(BaseName(p), noFile))]
  {
    var l := MetadataJobs(paths + [p], noFile);
    var r := MetadataJobs(paths, noFile) + [MetadataJob(p, InfoJsonPath(BaseName(p), noFile))];
    forall k | 0 <= k < |l|
      ensures l[k] == r[k]
    {
      if k < |paths| {
        assert (paths + [p])[k] == paths[k];
      }
    }
  }

  /** The metadata tool's loop: a path that is not a file is skipped; every other replay gets
      one job, in list order. */
  method RunMetadata(paths: seq<string>, files: set<string>, noFile: bool) returns (jobs: seq<MetadataJob>)
    ensures jobs == MetadataJobs(ExistingPaths(paths, files), noFile)
  {
    jobs := [];
    for i := 0 to |paths|
      invariant jobs == MetadataJobs(ExistingPaths(paths[..i], files), noFile)
    {
      MetadataJobsStep(paths, i, files, noFile);
      if paths[i] in files {
        jobs := jobs + [MetadataJob(paths[i], InfoJsonPath(BaseName(paths[i]), noFile))];
      }
    }
    assert paths[..|paths|] == paths;
  }
}
