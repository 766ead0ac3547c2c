/** The feature-engineering run: every replay directory is admitted or skipped in a fixed order of
    checks, an admitted replay is handed to the feature script, and each non-empty result is
    appended to one CSV file whose header is written with the first result. A run that processes
    nothing exits with status 1. The directory contents are given as values. */
module FeatureEngineer {
  import opened Wrappers
  import opened Seqs
  import opened CsvLog
  import opened FeatureBase
  import opened SimpleFeatures

  /** One directory under `OutputRaw`: its name and whichever of its files exist, already read
      (`*_info.json` and the `units`, `resources`, `deaths` and `upgrades` parquet files). */
  datatype ReplayDir = ReplayDir(
    id: string,
    info: Option<Metadata>,
    units: Option<Table>,
    resources: Option<seq<ResourceRow>>,
    deaths: Option<Table>,
    upgrades: Option<Table>)

  /** The player names and ids read from the metadata. */
  datatype PlayerNames = PlayerNames(p1Name: Option<string>, p2Name: Option<string>, p1Id: Option<int>, p2Id: Option<int>)

  function LastWithId(players: seq<PlayerInfo>, id: int): Option<nat> {
    LastIndex(players, (p: PlayerInfo) => p.playerId == Some(id))
  }

  /** The names as the player loop leaves them: the entry with id 1 (or 2) that comes last wins,
      and an id is known only once some entry carries it. */
  function NamesOf(players: seq<PlayerInfo>): (n: PlayerNames)
    ensures n.p1Id.Some? <==> exists i :: 0 <= i < |players| && players[i].playerId == Some(1)
    ensures n.p2Id.Some? <==> exists i :: 0 <= i < |players| && players[i].playerId == Some(2)
    ensures n.p1Id.None? ==> n.p1Name.None?
    ensures n.p2Id.None? ==> n.p2Name.None?
    ensures n.p1Id.Some? ==>
              && n.p1Id == Some(1)
              && exists i :: 0 <= i < |players| && players[i].playerId == Some(1) && n.p1Name == players[i].playerName
                             && forall j :: i < j < |players| ==> players[j].playerId != Some(1)
    ensures n.p2Id.Some? ==>
              && n.p2Id == Some(2)
              && exists i :: 0 <= i < |players| && players[i].playerId == Some(2) && n.p2Name == players[i].playerName
                             && forall j :: i < j < |players| ==> players[j].playerId != Some(2)
  {
    var k1 := LastWithId(players, 1);
    var k2 := LastWithId(players, 2);
    PlayerNames(if k1.Some? then players[k1.value].playerName else None,
                if k2.Some? then players[k2.value].playerName else None,
                if k1.Some? then Some(1) else None,
                if k2.Some? then Some(2) else None)
  }

  /** The player loop over `metadata.get('Players', [])`. */
  method ExtractPlayerNames(m: Metadata) returns (n: PlayerNames)
    ensures n == NamesOf(m.players.GetOr([]))
  {
    var players := m.players.GetOr([]);
    var p1Name, p2Name: Option<string> := None, None;
    var p1Id, p2Id: Option<int> := None, None;
    for i := 0 to |players|
      invariant PlayerNames(p1Name, p2Name, p1Id, p2Id) == NamesOf(players[..i])
    {
      assert players[..i + 1][..i] == players[..i];
      var entry := players[i];
      if entry.playerId == Some(1) {
        p1Id := Some(1);
        p1Name := entry.playerName;
      } else if entry.playerId == Some(2) {
        p2Id := Some(2);
        p2Name := entry.playerName;
      }
    }
    assert players[..|players|] == players;
    n := PlayerNames(p1Name, p2Name, p1Id, p2Id);
  }

  /** Python truthiness of an optional name and an optional id. */
  predicate NameIsTruthy(s: Option<string>) {
    s.Some? && s.value != ""
  }

  predicate IdIsTruthy(id: Option<int>) {
    id.Some? && id.value != 0
  }

  /** Why a replay was skipped. */
  datatype Skip =
    | NoInfoFile
    | TooShort(duration: int)
    | IncompletePlayerInfo
    | NoUnitsFile
    | NoResourcesFile
    | ScriptFailed(error: FeatureError)

  /** The admission checks, in the loop's order: metadata file, minimum duration (`Duration`
      defaulting to 0), complete player info, units file, resources file. */
  function Admit(d: ReplayDir, minD: Option<int>): (r: Result<Bundle, Skip>)
    ensures r.Ok? <==>
              && d.info.Some?
              && !(minD.Some? && d.info.value.duration.GetOr(0) < minD.value)
              && (var n := NamesOf(d.info.value.players.GetOr([]));
                  NameIsTruthy(n.p1Name) && NameIsTruthy(n.p2Name) && IdIsTruthy(n.p1Id) && IdIsTruthy(n.p2Id))
              && d.units.Some? && d.resources.Some?
    ensures r.Ok? ==>
              && r.value.metadata == d.info && r.value.units == d.units && r.value.resources == d.resources
              && r.value.deaths == d.deaths && r.value.upgrades == d.upgrades
              && r.value.p1Id == Some(1) && r.value.p2Id == Some(2)
              && r.value.p1Name == NamesOf(d.info.value.players.GetOr([])).p1Name
              && r.value.p2Name == NamesOf(d.info.value.players.GetOr([])).p2Name
    ensures r.Err? && r.error.TooShort? ==> minD.Some? && r.error.duration < minD.value
  {
    if d.info.None? then Err(NoInfoFile)
    else
      var m := d.info.value;
      if minD.Some? && m.duration.GetOr(0) < minD.value then Err(TooShort(m.duration.GetOr(0)))
      else
        var n := NamesOf(m.players.GetOr([]));
        if !(NameIsTruthy(n.p1Name) && NameIsTruthy(n.p2Name) && IdIsTruthy(n.p1Id) && IdIsTruthy(n.p2Id)) then
          Err(IncompletePlayerInfo)
        else if d.units.None? then Err(NoUnitsFile)
        else if d.resources.None? then Err(NoResourcesFile)
        else Ok(Bundle(Some(m), n.p1Name, n.p2Name, n.p1Id, n.p2Id, d.units, d.resources, d.deaths, d.upgrades))
  }

  /** What one directory contributes: the script's rows, or the reason it was skipped. */
  function Outcome(d: ReplayDir, minD: Option<int>): Result<seq<FeatureRow>, Skip> {
    match Admit(d, minD)
    case Err(e) => Err(e)
    case Ok(b) =>
      match Features(b, d.id)
      case Err(e) => Err(ScriptFailed(e))
      case Ok(rows) => Ok(rows)
  }

  predicate Contributes(d: ReplayDir, minD: Option<int>) {
    Outcome(d, minD).Ok? && Outcome(d, minD).value != []
  }

  /** The non-empty results of the directories, in directory order. */
  function Results(dirs: seq<ReplayDir>, minD: Option<int>): seq<seq<FeatureRow>> {
    if dirs == [] then []
    else
      var d := dirs[|dirs| - 1];
      Results(dirs[..|dirs| - 1], minD) + (if Contributes(d, minD) then [Outcome(d, minD).value] else [])
  }

  function Flatten(chunks: seq<seq<FeatureRow>>): seq<FeatureRow> {
    if chunks == [] then [] else Flatten(chunks[..|chunks| - 1]) + chunks[|chunks| - 1]
  }

  lemma FlattenSnoc(chunks: seq<seq<FeatureRow>>, chunk: seq<FeatureRow>)
    ensures Flatten(chunks + [chunk]) == Flatten(chunks) + chunk
  {
    assert (chunks + [chunk])[..|chunks|] == chunks;
  }

  lemma ResultsSnoc(dirs: seq<ReplayDir>, d: ReplayDir, minD: Option<int>)
    ensures Results(dirs + [d], minD)
         == Results(dirs, minD) + (if Contributes(d, minD) then [Outcome(d, minD).value] else [])
  {
    assert (dirs + [d])[..|dirs|] == dirs;
  }

  lemma {:induction false} ResultsConcat(a: seq<ReplayDir>, b: seq<ReplayDir>, minD: Option<int>)
    ensures Results(a + b, minD) == Results(a, minD) + Results(b, minD)
    decreases |b|
  {
    if b == [] {
      assert a + b == a;
    } else {
      var init := b[..|b| - 1];
      var last := b[|b| - 1];
      assert a + b == (a + init) + [last];
      assert b == init + [last];
      ResultsConcat(a, init, minD);
      ResultsSnoc(a + init, last, minD);
      ResultsSnoc(init, last, minD);
    }
  }

  /** A replay that fails any check, or whose script raises, is skipped and the run goes on
      with the rest unchanged. */
  lemma SkippedReplayDropsOut(before: seq<ReplayDir>, d: ReplayDir, after: seq<ReplayDir>, minD: Option<int>)
    requires Outcome(d, minD).Err?
    ensures Results(before + [d] + after, minD) == Results(before, minD) + Results(after, minD)
  {
    ResultsConcat(before + [d], after, minD);
    ResultsSnoc(before, d, minD);
  }

  /** Every processed replay adds exactly two rows (one per player's point of view). */
  lemma {:induction false} TwoRowsPerReplay(dirs: seq<ReplayDir>, minD: Option<int>)
    ensures |Flatten(Results(dirs, minD))| == 2 * |Results(dirs, minD)|
  {
    if dirs != [] {
      var d := dirs[|dirs| - 1];
      TwoRowsPerReplay(dirs[..|dirs| - 1], minD);
      var prev := Results(dirs[..|dirs| - 1], minD);
      if Contributes(d, minD) {
        var b := Admit(d, minD).value;
        FeaturesMirror(b, d.id);
        assert Results(dirs, minD) == prev + [Outcome(d, minD).value];
        assert (prev + [Outcome(d, minD).value])[..|prev|] == prev;
      } else {
        assert Results(dirs, minD) == prev;
      }
    }
  }

  /** The output file after `chunks` were appended in order: the count of written results,
      the file's rows, and the header gone in exactly when something was written. */
  ghost predicate LogState(output: seq<Line<FeatureRow>>, processedCount: nat, isFirstWrite: bool,
                           chunks: seq<seq<FeatureRow>>) {
    && processedCount == |chunks|
    && WellFormed(output, FeatureColumns)
    && Rows(output) == Flatten(chunks)
    && (isFirstWrite <==> output == [])
    && (output == [] <==> processedCount == 0)
  }

  /** The state of the replay loop after the first `i` directories. */
  ghost predicate RunState(dirs: seq<ReplayDir>, i: nat, minD: Option<int>,
                           output: seq<Line<FeatureRow>>, processedCount: nat, isFirstWrite: bool) {
    i <= |dirs| && LogState(output, processedCount, isFirstWrite, Results(dirs[..i], minD))
  }

  /** One more directory extends the results by its rows when it contributes, and not at all
      otherwise. */
  lemma ResultsStep(dirs: seq<ReplayDir>, i: nat, minD: Option<int>)
    requires i < |dirs|
    ensures Contributes(dirs[i], minD) ==>
              Results(dirs[..i + 1], minD) == Results(dirs[..i], minD) + [Outcome(dirs[i], minD).value]
    ensures !Contributes(dirs[i], minD) ==> Results(dirs[..i + 1], minD) == Results(dirs[..i], minD)
  {
    assert dirs[..i + 1] == dirs[..i] + [dirs[i]];
    ResultsSnoc(dirs[..i], dirs[i], minD);
    assert Results(dirs[..i], minD) + [] == Results(dirs[..i], minD);
  }

  /** Appending one result, with the header on the first write, extends the log by that chunk. */
  lemma WriteStep(output: seq<Line<FeatureRow>>, processedCount: nat, isFirstWrite: bool,
                  chunks: seq<seq<FeatureRow>>, rows: seq<FeatureRow>)
    requires LogState(output, processedCount, isFirstWrite, chunks)
    ensures LogState(Write(output, FeatureColumns, isFirstWrite, rows), processedCount + 1, false, chunks + [rows])
  {
    FlattenSnoc(chunks, rows);
    WriteAppendsRows(output, FeatureColumns, isFirstWrite, rows);
  }

  /** The replay loop of `main`. `output` is the CSV file in lines; the header goes in with the
      first appended result. */
  method Run(script: FeatureScript, dirs: seq<ReplayDir>, minD: Option<int>)
    returns (output: seq<Line<FeatureRow>>, processedCount: nat, exitCode: int)
    modifies script
    ensures processedCount == |Results(dirs, minD)|
    ensures WellFormed(output, FeatureColumns)
    ensures Rows(output) == Flatten(Results(dirs, minD))
    ensures output == [] <==> processedCount == 0
    ensures exitCode == (if processedCount == 0 then 1 else 0)
  {
    output := [];
    processedCount := 0;
    var isFirstWrite := true;
    for i := 0 to |dirs|
      invariant RunState(dirs, i, minD, output, processedCount, isFirstWrite)
    {
      var d := dirs[i];
      ResultsStep(dirs, i, minD);
      if d.info.None? {
        continue;
      }
      var m := d.info.value;
      if minD.Some? && m.duration.GetOr(0) < minD.value {
        continue;
      }
      var names := ExtractPlayerNames(m);
      if !(NameIsTruthy(names.p1Name) && NameIsTruthy(names.p2Name) && IdIsTruthy(names.p1Id) && IdIsTruthy(names.p2Id)) {
        continue;
      }
      if d.units.None? || d.resources.None? {
        continue;
      }
      var bundle := Bundle(Some(m), names.p1Name, names.p2Name, names.p1Id, names.p2Id,
                           d.units, d.resources, d.deaths, d.upgrades);
      assert Admit(d, minD) == Ok(bundle);
      var _ := script.InitBundle(bundle);
      var r := ProcessReplay(script, bundle, d.id);
      if r.Err? {
        continue;
      }
      if r.value != [] {
        WriteStep(output, processedCount, isFirstWrite, Results(dirs[..i], minD), r.value);
        output := Write(output, FeatureColumns, isFirstWrite, r.value);
        isFirstWrite := false;
        processedCount := processedCount + 1;
      }
    }
    assert dirs[..|dirs|] == dirs;
    exitCode := if processedCount == 0 then 1 else 0;
  }
}
