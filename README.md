# SC2 replay analysis: a verified model of the extraction and feature core

This project is a Dafny model of the sequential logic of the SC2-Replay-Analysis tools.

- **Observer bot.** The per-perspective bot of `Replay-Extractor.py` records a unit log, a
  tag-keyed unit cache and a death log while a replay plays back.
- **Output routing.** `save_data_from_bot` groups the unit log by player and routes each group
  to a ground-truth, observed-by or player-id file named from the replay's stem.
- **Replay selection.** Both command-line tools classify a replay argument, scan the `Replays`
  directory (the extractor keeps only games without an output directory yet), and walk the list.
  The extractor stops at a `STOP` file; the metadata tool derives `Output/<n>/<n>_info.json`.
- **Extractor helpers.** `internal/extractor_helper.py` provides the resource-snapshot predicate,
  the stable `split_units` partition and the four column-type tables.
- **Feature scripts.** The feature-script base class (`_init_bundle`, races, winner) and the
  `SimpleFeatures` script cover supply at three and four minutes, collection rates between two and
  four minutes, largest banks, and the two mirrored point-of-view rows.
- **Feature engineering.** The `Feature-Engineer.py` loop admits replay directories, appends
  results to one CSV file with its header written once, counts processed replays and exits with
  status 1 when none was processed.

The game engine, the file system and the clock are replaced by values:

- engine units are records (`EngineUnits.Unit`);
- CSV files are sequences of header and row lines (`CsvLog.Line`);
- directory listings and the set of existing files or output directories are parameters;
- the `STOP` file is a predicate on the replay index.

Stateful code is modelled as classes with `modifies` clauses:

- `Observer.ObserverBot` holds the temp logs and the cache;
- `FeatureBase.FeatureScript` holds the fields `_init_bundle` assigns.

Loops are modelled as methods proved against specification functions, and pure lookups as
functions.

Module layout:

- `wrappers.dfy`: Option and Result
- `seqs.dfy`, `strings.dfy`: list and string helpers in Python's terms
- `csv_log.dfy`: CSV files as line sequences
- `engine_units.dfy`: the engine unit record
- `observer.dfy`: the observer bot
- `replay_names.dfy`: replay stems and output file names
- `extractor_output.dfy`: `save_data_from_bot`
- `replay_selection.dfy`: the command-line replay lists
- `extractor_helper.dfy`: the extractor helpers
- `feature_base.dfy`: the feature-script base class
- `simple_features.dfy`: the `SimpleFeatures` script
- `feature_engineer.dfy`: the feature-engineering run

Facts about the extractor code that the model follows:

- `unit_cache` is cleared and rebuilt from the current units at every recorded step;
- a destroyed unit keeps its cache entry;
- `resource_snap` and `split_units` have no caller in the extractor;
- each perspective writes its own CSV files;
- the `optimize_*` functions of `internal/extractor_helper.py` cast a frame with `astype`, but
  nothing in the modelled code calls them. The model states which values fit each column type
  (`ExtractorHelper.Fits`) and does not model the cast itself.

## Model

| member | source | states |
|---|---|---|
| Observer.RowsOfAt | Replay-Extractor.py:65-83 | a recorded step's row i describes unit i with the step's time; the owner falls back to 0; `resource_remaining` is mineral contents for a mineral field, else vespene contents for a geyser, else -1 |
| Observer.CacheOfKeys | Replay-Extractor.py:102-113 | the rebuilt cache's keys are exactly the tags of the current units, so nothing from an earlier step survives |
| Observer.CacheOfLastWins | Replay-Extractor.py:105-113 | for a tag listed twice, the cache holds the later unit's type, owner and position |
| Observer.ObserverBot.constructor | Replay-Extractor.py:24-41 | a new bot has no temp files, empty logs and an empty cache |
| Observer.ObserverBot.OnStart | Replay-Extractor.py:47-52 | the temp files are placed in `Output/<game number>`; logs and cache are unchanged |
| Observer.ObserverBot.OnStep | Replay-Extractor.py:54-113 | it leaves the game past `end_time` and returns before `start_time`; a zero interval raises; an off-interval step returns; an early return leaves the logs and cache unchanged; otherwise the unit log gains exactly one row per current unit, in order, the header is written once before the first row, and the cache becomes the map of the current units |
| Observer.ObserverBot.OnUnitDestroyed | Replay-Extractor.py:126-147 | a death row is emitted iff the tag is cached (and the temp path was set); it carries the cached type, owner and position with the current time; the cache is untouched |
| CsvLog.WriteAppendsRows | Replay-Extractor.py:86-99 | writing the header exactly with the first write keeps the file a header followed by rows, and adds exactly the given rows in order |
| CsvLog.HeaderOnce | Replay-Extractor.py:139-147 | a well-formed log holds one header line and otherwise only rows |
| ReplayNames.BaseName | Replay-Extractor.py:221 | `Path(...).name` of a normalised path string is the whole suffix after its last '/': a suffix of the path without '/', preceded by '/' whenever it is shorter than the path |
| ReplayNames.Normalize | Replay-Extractor.py:365-366 | a plain definition of `str(Path(p))` on POSIX: the root when absolute, then the kept components joined by '/'; `NormalizeName` and `NormalizeTrailing` state its properties |
| ReplayNames.NormalizeName | Replay-Extractor.py:365-366 | the name of a normalised path is its last component that is neither empty nor ".", so a trailing '/' or "/." or a doubled '/' does not change the name of `Path(args.replay)` |
| ReplayNames.NormalizeTrailing | Replay-Metadata.py:42-43 | building a `Path` from a non-empty string drops a trailing '/' or "/.": the normalised string is the same with or without it |
| ReplayNames.PathPartsDropLast | Replay-Extractor.py:379 | a last component that is empty or "." is not kept, so `Path("Replays") / id` keeps the same components as without it |
| ReplayNames.Stem | Replay-Extractor.py:221 | a plain definition of `Path(...).stem`; `StemShape` and `StemOfReplayFile` state its properties |
| ReplayNames.StemShape | Replay-Extractor.py:221 | the stem is a prefix of the name; when shorter it stops at the last '.', which is neither the first nor the last character; the whole name is kept only when no such last '.' exists |
| ReplayNames.GameNumber | Replay-Extractor.py:48 | a plain definition of `stem.split("_")[0]`; `GameNumberShape` states what it is |
| ReplayNames.GameNumberShape | Replay-Extractor.py:48 | the game number is the stem up to its first underscore, and holds none |
| ReplayNames.StemOfReplayFile | Replay-Extractor.py:221 | the stem of `<n>.SC2Replay` is `<n>` |
| ReplayNames.ParseStem | Replay-Extractor.py:221-225 | game and player fields hold no underscore; fewer than three fields is an error |
| ReplayNames.ParseStemFails | Replay-Extractor.py:221-224 | parsing fails exactly when the stem has fewer than two underscores (IndexError) |
| ReplayNames.ParseStemRoundTrip | Replay-Extractor.py:221-225 | parts 0, 1 and 2 are the game, p1 and p2, and the map is the remaining parts joined with "_", whatever underscores it contains |
| ReplayNames.ParseStemThreeFields | Replay-Extractor.py:221-225 | a stem of exactly three fields parses into game, p1 and p2 with an empty map name |
| Strings.JoinSplit | Replay-Extractor.py:225 | joining the split parts with the separator gives back the string |
| ReplayNames.UnitFileName | Replay-Extractor.py:232-241 | a plain definition of the three name forms; `UnitFileNameShape` and `GroundTruthIff` state its properties |
| ReplayNames.UnitFileNameShape | Replay-Extractor.py:232-241 | every unit file name starts with the game number and '_' and ends in `.csv` |
| ReplayNames.DeathFileName | Replay-Extractor.py:273 | a plain definition of the death file name; `DeathFileFields` states what can be read back from it |
| ReplayNames.DeathFileFields | Replay-Extractor.py:273 | the death file's first three underscore-separated fields are the game, `deaths` and `observed-by-<observer>`, so game and perspective can be read back from the name |
| ReplayNames.GroundTruthIff | Replay-Extractor.py:232-241 | a unit file is named ground-truth iff its player is 1 or 2 and equals the observed id |
| ReplayNames.LeadingDigitCount | Replay-Extractor.py:400 | the leading run of ASCII digits, and nothing more |
| ReplayNames.LeadingGameNumberIff | Replay-Extractor.py:400-402 | `^(\d+)_` captures g iff g is a digit run that, followed by '_', starts the name |
| ExtractorOutput.GroupByPlayer | Replay-Extractor.py:210-214 | the keys are the player ids in order of first appearance, and each key maps to that player's rows in log order |
| ExtractorOutput.GroupNonEmpty | Replay-Extractor.py:246 | every grouped player has at least one row, so the emptiness guard never skips a group |
| ExtractorOutput.UnitFilesPartition | Replay-Extractor.py:232-250 | one file per distinct player, none empty, each holding exactly that player's rows under its routed name; every row lands in its own player's file |
| ExtractorOutput.SaveUnitFiles | Replay-Extractor.py:210-252 | the unit part fails iff the stem has fewer than three fields, with the malformed-name error, and otherwise yields exactly the unit files of `UnitFiles`, one per player in first-appearance order |
| ExtractorOutput.SaveDataFromBot | Replay-Extractor.py:173-280 | the result is an error iff some log has data and the stem has fewer than three fields; otherwise the unit files (when the unit log has rows) followed by the death file (when the death log has rows) |
| ReplaySelection.Resolve | Replay-Metadata.py:42-59 | an absolute path resolves to its normalised form; a digit id resolves iff exactly one `<id>_*.SC2Replay` is listed (to that file), and a missing `Replays` directory, no match or several matches give nothing; any other id resolves iff it contains ".SC2Replay", to the normalised `Replays/<id>` |
| ReplaySelection.ResolvedAbsoluteName | Replay-Extractor.py:365-366 | an absolute argument resolves, and the resolved path's name is its last component that is neither empty nor ".", so `/r/12_a_b.SC2Replay/` names `12_a_b.SC2Replay` |
| ReplaySelection.ResolveTestOrder | Replay-Metadata.py:45-56 | testing the extension before the digits gives the same result, because a digit id never contains ".SC2Replay" |
| ReplaySelection.ResolvedNumberIsGameNumber | Replay-Extractor.py:368-374 | a replay found for a game number has that number as its leading game number |
| ReplaySelection.SelectNewReplays | Replay-Extractor.py:397-404 | the batch list holds, in listing order, the replay files whose game number has no output directory |
| ReplaySelection.NewReplaySelected | Replay-Extractor.py:399-404 | a listed name is selected iff it is a replay file starting with `<g>_` for a digit run g that is not an existing output directory |
| ReplaySelection.AllReplays | Replay-Metadata.py:72-73 | the metadata batch list holds exactly the listed `*.SC2Replay` files |
| ReplaySelection.SelectReplays | Replay-Extractor.py:358-404 | a given argument yields the resolved replay path alone when it resolves, and nothing otherwise; batch mode without `Replays` is fatal; batch mode yields the new replays (extractor) or all replays (metadata tool) |
| ReplaySelection.StopLimit | Replay-Extractor.py:415-421 | the loop reaches replays up to the first index at which `STOP` exists |
| ReplaySelection.RunBatch | Replay-Extractor.py:412-434 | the batch stops iff `STOP` appears before some replay; the extracted replays are the existing files among those before the stop, in order |
| ReplaySelection.InfoJsonPath | Replay-Metadata.py:88-95 | a plain definition of the target path; `InfoJsonPathIff` states when it exists and what it is |
| ReplaySelection.InfoJsonPathIff | Replay-Metadata.py:88-95 | the output is `Output/<g>/<g>_info.json` iff `--no-file` is absent and the name starts with a digit run g and '_' |
| ReplaySelection.MetadataJobs | Replay-Metadata.py:81-98 | one `get_replay_info` call per path; `MetadataJobTargets` states each call's replay and target |
| ReplaySelection.MetadataJobTargets | Replay-Metadata.py:81-98 | call i is for path i; it gets an info file exactly when `--no-file` is off and the file name starts with a game number g, and that file is `Output/<g>/<g>_info.json` |
| ReplaySelection.RunMetadata | Replay-Metadata.py:81-98 | every existing replay gets one job in list order; missing files are skipped |
| ExtractorHelper.ResourceSnap | internal/extractor_helper.py:6-7 | a plain definition of `resource_snap`; `ResourceSnapSplit` states which units it separates |
| ExtractorHelper.SplitUnits | internal/extractor_helper.py:9-22 | the first part is the units satisfying the predicate and the second the rest, each in input order |
| ExtractorHelper.SplitUnitsPartition | internal/extractor_helper.py:18-19 | the parts' lengths sum to the input's, and together they are the input as a multiset |
| ExtractorHelper.ResourceSnapSplit | internal/extractor_helper.py:6-7 | a unit is in the first part of a `resource_snap` split iff it is a snapshot and a mineral field or geyser |
| ExtractorHelper.UnitTableColumns | internal/extractor_helper.py:26-39 | the unit table types every unit-log column plus `is_snapshot` |
| ExtractorHelper.UnitRowFitsIff | internal/extractor_helper.py:26-39 | a unit-log row fits the table iff its tag is below 2^64, its player id is in 0..255 and its remaining resources are in the signed 16-bit range |
| ExtractorHelper.FallbacksFit | internal/extractor_helper.py:28-38 | the owner fallback 0 and the resource sentinel -1 fit the table |
| ExtractorHelper.DeathTableColumns | internal/extractor_helper.py:47-54 | the death table covers exactly the six death-row columns, typed as in the unit table |
| ExtractorHelper.ResourceTableSymmetric | internal/extractor_helper.py:61-73 | minerals and vespene are UInt32 and supply cap, used and army UInt16, identically for p1 and p2; every column but the timestamp belongs to such a pair |
| ExtractorHelper.UpgradeTableColumns | internal/extractor_helper.py:80-87 | costs are UInt16, the player id UInt8 and both times Float32 |
| FeatureBase.FeatureScript.InitBundle | internal/feature_script_base.py:15-32 | it raises iff `units` or `resources` is absent, naming the first missing key; metadata defaults to {}; names and ids are copied; optional frames become None when absent; fields a raise skips keep their old values |
| FeatureBase.RaceAt | internal/feature_script_base.py:35-48 | `Players[i].SelectedRace`, or None exactly when the list, the index or the key is missing |
| FeatureBase.WinnerOf | internal/feature_script_base.py:50-59 | a returned id is the PlayerID of the first player whose Result is "Win", that first winner's PlayerID is always what is returned, and None comes back when no player won |
| Seqs.LastIndex | FeatureScripts/simple_features.py:77 | the last row satisfying the filter, or None when no row does |
| SimpleFeatures.SupplyAt | FeatureScripts/simple_features.py:72-94 | zeros for a missing or empty frame; otherwise an IndexError iff every timestamp exceeds t; otherwise workers + army = used/2 and army = army/2 at the last row with timestamp at most t |
| SimpleFeatures.CollectionRates | FeatureScripts/simple_features.py:97-127 | zeros for a missing or empty frame; an error iff a snapshot is missing or the interval is empty; rate times minutes equals end minus start for all four quantities |
| SimpleFeatures.MaxBank | FeatureScripts/simple_features.py:130-145 | each maximum bounds every qualifying row's value and is attained by one; zeros when no row qualifies |
| SimpleFeatures.FillRow | FeatureScripts/simple_features.py:161-206 | the key-by-key assignments produce the point-of-view row of the given player against the other |
| SimpleFeatures.Features | FeatureScripts/simple_features.py:6-215 | a plain definition of what `process_replay` returns; `FeaturesMirror`, `FeaturesWin`, `FeaturesSupplyTotals` and `FeaturesErrIff` state its properties |
| SimpleFeatures.ProcessReplay | FeatureScripts/simple_features.py:6-215 | the method returns exactly the two rows (or the error) that the `Features` definition gives, and leaves the script holding what `_init_bundle` took from the bundle: metadata, names and ids always, `units` unless absent, `resources` unless it or `units` is absent, `deaths` and `upgrades` only when both essentials are present |
| SimpleFeatures.FeaturesMirror | FeatureScripts/simple_features.py:161-209 | two rows, p1 then p2, with races and names swapped, every advantage (workers and army supply at three and four minutes, minerals and vespene per minute) the player's value minus the opponent's and so negated in the other row, each delta the four-minute minus the three-minute value, and at most one win |
| SimpleFeatures.FeaturesWin | FeatureScripts/simple_features.py:10-11 | p1 wins iff the winner is 1, p2 iff it is 2 |
| SimpleFeatures.FeaturesSupplyTotals | FeatureScripts/simple_features.py:85-92 | a row's three-minute workers plus army equal half the used supply, and its army half the army supply, of the latest snapshot at or before three minutes, with player 2's row taken from the p2 columns |
| SimpleFeatures.FeaturesErrIff | FeatureScripts/simple_features.py:72-127 | processing raises iff `units` or `resources` is missing, or the frame has rows but none at or before two minutes |
| SimpleFeatures.MeasureErrIff | FeatureScripts/simple_features.py:151-158 | with the resource frame present, the supply and collection-rate measurements fail iff the frame has rows but none at or before two minutes |
| SimpleFeatures.EmptyResourcesGiveZeros | FeatureScripts/simple_features.py:73-74 | an empty resource frame yields two rows whose every supply, rate and bank column, advantage and delta included, is zero |
| FeatureEngineer.NamesOf | Feature-Engineer.py:110-119 | an id is set iff some entry carries it; the name comes from the last such entry |
| FeatureEngineer.ExtractPlayerNames | Feature-Engineer.py:110-119 | the player loop computes exactly those names and ids |
| FeatureEngineer.Admit | Feature-Engineer.py:93-167 | admitted iff the info file exists, the duration (default 0) is not below `--min-d` when given, both names and ids are truthy, and the units and resources files exist; the bundle then carries the optional frames as they are and the player names `NamesOf` reads from the metadata |
| FeatureEngineer.SkippedReplayDropsOut | Feature-Engineer.py:170-178 | a skipped or failing replay contributes nothing, and the rest of the run is unchanged |
| FeatureEngineer.TwoRowsPerReplay | Feature-Engineer.py:181-185 | the output has exactly two rows per processed replay |
| FeatureEngineer.Run | Feature-Engineer.py:77-198 | `processed_count` is the number of non-empty results; the file is one header followed by all those rows in directory order, and is empty iff none was processed; the exit status is 1 exactly then |

## Left out

- Engine driving is not modelled: `SC2Process`, `Client`, `run_replay`, `_play_replay`, the
  `ProtocolError` handling, asyncio and multiprocessing are foreign calls and process-level
  concurrency. Each observer callback is a method, and `save_data_from_bot` is applied to the bot's
  final state.
- Reading and writing CSV, JSON and Parquet files, the temp schema JSON, `os.remove`, `mkdir` and
  `uuid` file names are I/O. Logs are line sequences; an output file is a path with its rows.
- The round trip of unit rows through CSV text and the `int(float(s))` conversion with its string
  fallback are float parsing. Grouping works on typed rows.
- `Observer.ObserverBot.OnStep`: the engine's `client.leave()` is reported as the `LeaveGame`
  outcome.
- `ReplaySelection.SelectReplays`: a missing `Replays` directory is the `ReplaysDirectoryMissing`
  error, standing in for `exit()`.
- `mkdir` of `Output` is a file-system effect and is not modelled.
- MPQ archive extraction (`get_replay_info`) is a foreign library, so the metadata is a value.
  `RunMetadata` returns the jobs it would run.
- pandas `astype` and Float32 rounding are not modelled. Only the column-to-type tables and the
  range of each integer width are.
- Plugin discovery through importlib, `--limit` with `random.sample`, and the timestamped output
  file name are not modelled. The run uses one `SimpleFeatures` script over the given directory list.
- Model training and evaluation (sklearn, LightGBM, plotting) are out of scope, and so are the
  stale feature library script and the exception class, which is a `Skip` or `BundleError` value.
- The dual-perspective merge, visibility flags, forward fill and resource or upgrade sampling
  appear in no extractor code shown, so they are not modelled.
- Paths are POSIX `/` paths. `Path(...)` normalisation is modelled by `ReplayNames.Normalize`
  (empty and "." components dropped); pathlib's special case that keeps a leading "//" is not.
  Windows paths and `resolve()` (symlinks, "..", the current directory) are not modelled, and an
  existing file is membership in a given set.
- `str.isdigit` and `\d` are modelled on ASCII digits only. Unicode digits are not modelled.
- `Path.glob` is modelled as a filter over the directory listing, in listing order.
- `SimpleFeatures.SupplyAt` and `SimpleFeatures.CollectionRates`: the resource columns are always
  present, so the `.get(..., 0)` defaults for a missing column do not arise.
- Arithmetic is exact. A possible unsigned wrap-around of `used - army` in a UInt16 frame is not
  modelled.
- `SimpleFeatures.Features`: after the rows are built, the category cast of the race and name
  columns has no effect on values and is not modelled.
- `FeatureBase.Bundle`: a key that is present but maps to None is the same as an absent key for
  `deaths` and `upgrades`. For `units` and `resources` the Python code would accept a present
  None; the model does not represent it.
- `FeatureBase.WinnerOf`: a `Players` entry that is not a dictionary, and the guarded
  KeyError/IndexError paths this would reach, are not modelled.
- `FeatureEngineer.Run`: the output file is assumed absent at the start, and unlinking an
  unwritten file is a file-system effect. Exceptions other than those the model names (a
  corrupt Parquet or JSON file) are I/O failures and are not modelled.
