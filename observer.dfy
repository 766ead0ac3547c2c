/** The per-perspective observer bot of Replay-Extractor.py: on each recorded step it logs one
    row per unit and rebuilds its tag-keyed unit cache; on a unit's destruction it logs a death
    row from that cache. The temporary CSV files are kept as in-memory line sequences. */
module Observer {
  import opened Wrappers
  import opened EngineUnits
  import opened CsvLog
  import ReplayNames

  /** One row of the unit log. */
  datatype UnitRow = UnitRow(
    timestamp: real, tag: nat, typeName: string, playerId: int,
    x: real, y: real, health: real, shield: real, energy: real, buildProgress: real,
    resourceRemaining: int)

  /** One row of the death log. */
  datatype DeathRow = DeathRow(timestamp: real, tag: nat, typeName: string, playerId: int, x: real, y: real)

  /** What the cache remembers of a unit between steps. */
  datatype CacheEntry = CacheEntry(typeName: string, playerId: int, x: real, y: real)

  const UnitColumns: seq<string> := [
    "timestamp", "unit_tag", "unit_type", "player_id", "position_x", "position_y",
    "health", "shield", "energy", "build_progress", "resource_remaining"]

  const DeathColumns: seq<string> := [
    "timestamp", "unit_tag", "unit_type", "player_id", "position_x", "position_y"]

  /** `unit.owner_id`, falling back to 0 when the attribute is missing. */
  function OwnerOf(u: Unit): int {
    match u.owner
    case Some(o) => o
    case None => 0
  }

  /** Mineral contents for a mineral field, else vespene contents for a geyser, else -1. */
  function ResourceRemaining(u: Unit): int {
    if u.isMineralField then u.mineralContents
    else if u.isVespeneGeyser then u.vespeneContents
    else -1
  }

  function RowOf(u: Unit, time: real): UnitRow {
    UnitRow(time, u.tag, u.typeName, OwnerOf(u), u.x, u.y, u.health, u.shield, u.energy,
            u.buildProgress, ResourceRemaining(u))
  }

  /** The rows one recorded step appends, one per unit, in unit order. */
  function RowsOf(units: seq<Unit>, time: real): seq<UnitRow> {
    if units == [] then []
    else RowsOf(units[..|units| - 1], time) + [RowOf(units[|units| - 1], time)]
  }

  /** Row `i` of a recorded step describes unit `i`, stamped with the step's time, with owner 0
      for an unowned unit and the resource sentinel -1 for a unit that is neither a mineral
      field nor a geyser. */
  lemma {:induction false} RowsOfAt(units: seq<Unit>, time: real, i: nat)
    requires i < |units|
    ensures |RowsOf(units, time)| == |units|
    ensures var r := RowsOf(units, time)[i]; var u := units[i];
      && r.timestamp == time && r.tag == u.tag && r.typeName == u.typeName
      && r.x == u.x && r.y == u.y && r.health == u.health && r.shield == u.shield
      && r.energy == u.energy && r.buildProgress == u.buildProgress
      && r.playerId == (if u.owner.Some? then u.owner.value else 0)
      && r.resourceRemaining == (if u.isMineralField then u.mineralContents
                                 else if u.isVespeneGeyser then u.vespeneContents else -1)
  {
    var init := units[..|units| - 1];
    if i < |units| - 1 {
      RowsOfAt(init, time, i);
    } else if |units| > 1 {
      RowsOfAt(init, time, 0);
    }
  }

  function EntryOf(u: Unit): CacheEntry {
    CacheEntry(u.typeName, OwnerOf(u), u.x, u.y)
  }

  /** The cache after `unit_cache.clear()` and one `unit_cache[unit.tag] = ...` per unit. */
  function CacheOf(units: seq<Unit>): map<nat, CacheEntry> {
    if units == [] then map[]
    else CacheOf(units[..|units| - 1])[units[|units| - 1].tag := EntryOf(units[|units| - 1])]
  }

  /** The cache holds exactly the tags of the current units: nothing from earlier steps. */
  lemma {:induction false} CacheOfKeys(units: seq<Unit>)
    ensures CacheOf(units).Keys == set i | 0 <= i < |units| :: units[i].tag
  {
    if units != [] {
      var init := units[..|units| - 1];
      CacheOfKeys(init);
      assert (set i | 0 <= i < |units| :: units[i].tag)
          == (set i | 0 <= i < |init| :: init[i].tag) + {units[|units| - 1].tag};
    }
  }

  /** For a tag listed twice, the later unit's entry wins. */
  lemma {:induction false} CacheOfLastWins(units: seq<Unit>, i: nat)
    requires i < |units|
    requires forall j :: i < j < |units| ==> units[j].tag != units[i].tag
    ensures units[i].tag in CacheOf(units)
    ensures CacheOf(units)[units[i].tag] == EntryOf(units[i])
  {
    if i < |units| - 1 {
      CacheOfLastWins(units[..|units| - 1], i);
    }
  }

  function DeathRowOf(tag: nat, e: CacheEntry, time: real): DeathRow {
    DeathRow(time, tag, e.typeName, e.playerId, e.x, e.y)
  }

  /** The unit log after the first `i` units of a step were appended to `start`. */
  ghost predicate LoggedUpTo(start: seq<Line<UnitRow>>, file: seq<Line<UnitRow>>, units: seq<Unit>, i: nat, time: real) {
    && i <= |units|
    && WellFormed(file, UnitColumns)
    && Rows(file) == Rows(start) + RowsOf(units[..i], time)
    && (i == 0 ==> file == start)
    && (i > 0 ==> file != [])
    && (file != [] ==> |file| > 1)
  }

  /** Appending the next unit's row, with the header when the file is still empty. */
  lemma LogStep(start: seq<Line<UnitRow>>, file: seq<Line<UnitRow>>, units: seq<Unit>, i: nat, time: real)
    requires i < |units| && LoggedUpTo(start, file, units, i, time)
    ensures LoggedUpTo(start, Write(file, UnitColumns, file == [], [RowOf(units[i], time)]), units, i + 1, time)
  {
    WriteAppendsRows(file, UnitColumns, file == [], [RowOf(units[i], time)]);
    assert units[..i + 1][..i] == units[..i];
    assert RowLines([RowOf(units[i], time)]) == [Row(RowOf(units[i], time))];
  }

  /** How one call of `on_step` ends. */
  datatype StepOutcome =
    | LeaveGame       // time past end_time: the bot asks the client to leave
    | BeforeWindow    // time before start_time
    | DivisionByZero  // `iteration % interval` with interval 0 raises ZeroDivisionError
    | OffInterval     // not a multiple of the interval
    | NoTempFile      // on_start never ran: logged, and the step returns before writing
    | Recorded        // rows appended and cache rebuilt

  class ObserverBot {
    const replayPath: string
    const observedId: int
    const startTime: real
    const endTime: real
    const interval: int

    /** The replay's output directory, set by `on_start` together with the temp file paths. */
    var tempDir: Option<string>
    /** The unit temp CSV (`self.temp_file`). */
    var unitFile: seq<Line<UnitRow>>
    /** The death temp CSV (`self.death_temp_file`). */
    var deathFile: seq<Line<DeathRow>>
    var unitCache: map<nat, CacheEntry>

    /** Each temp file is empty or a header followed by at least one row, and holds something
        only once its path was set. */
    ghost predicate Valid()
      reads this
    {
      && WellFormed(unitFile, UnitColumns)
      && WellFormed(deathFile, DeathColumns)
      && (unitFile != [] ==> tempDir.Some? && |unitFile| > 1)
      && (deathFile != [] ==> tempDir.Some? && |deathFile| > 1)
    }

    function UnitRows(): seq<UnitRow>
      reads this
    {
      Rows(unitFile)
    }

    function DeathRows(): seq<DeathRow>
      reads this
    {
      Rows(deathFile)
    }

    constructor (replayPath: string, observedId: int, startTime: real, endTime: real, interval: int)
      ensures Valid()
      ensures this.replayPath == replayPath && this.observedId == observedId
      ensures this.startTime == startTime && this.endTime == endTime && this.interval == interval
      ensures tempDir == None && unitFile == [] && deathFile == [] && unitCache == map[]
    {
      this.replayPath := replayPath;
      this.observedId := observedId;
      this.startTime := startTime;
      this.endTime := endTime;
      this.interval := interval;
      tempDir := None;
      unitFile := [];
      deathFile := [];
      unitCache := map[];
    }

    /** `on_start`: the temp files go into `Output/<game number>`. */
    method OnStart()
      requires Valid()
      modifies this
      ensures Valid()
      ensures tempDir == Some(ReplayNames.OutputDir(ReplayNames.GameNumber(replayPath)))
      ensures unitFile == old(unitFile) && deathFile == old(deathFile) && unitCache == old(unitCache)
    {
      tempDir := Some(ReplayNames.OutputDir(ReplayNames.GameNumber(replayPath)));
    }

    /** `on_step`: gate on the time window and the step interval, then log every current unit
        and rebuild the cache from the current units. */
    method OnStep(iteration: int, time: real, allUnits: seq<Unit>) returns (outcome: StepOutcome)
      requires Valid()
      modifies this
      ensures Valid()
      ensures tempDir == old(tempDir) && deathFile == old(deathFile)
      ensures time > endTime ==> outcome == LeaveGame
      ensures time <= endTime && time < startTime ==> outcome == BeforeWindow
      ensures startTime <= time <= endTime && interval == 0 ==> outcome == DivisionByZero
      ensures startTime <= time <= endTime && interval != 0 && iteration % interval != 0 ==>
                outcome == OffInterval
      ensures startTime <= time <= endTime && interval != 0 && iteration % interval == 0 ==>
                outcome == (if old(tempDir).None? && allUnits != [] then NoTempFile else Recorded)
      ensures outcome != Recorded ==> unitFile == old(unitFile) && unitCache == old(unitCache)
      ensures outcome == Recorded ==> UnitRows() == old(UnitRows()) + RowsOf(allUnits, time)
      ensures outcome == Recorded ==> unitCache == CacheOf(allUnits)
    {
      if time > endTime {
        return LeaveGame;
      }
      if time < startTime {
        return BeforeWindow;
      }
      if interval == 0 {
        return DivisionByZero;
      }
      if iteration % interval != 0 {
        return OffInterval;
      }

      var file := unitFile;
      var i := 0;
      while i < |allUnits|
        invariant 0 <= i <= |allUnits|
        invariant LoggedUpTo(old(unitFile), file, allUnits, i, time)
        invariant file != [] ==> tempDir.Some?
        invariant unchanged(this)
      {
        var header := file == [];
        if header && tempDir.None? {
          return NoTempFile;
        }
        LogStep(old(unitFile), file, allUnits, i, time);
        file := Write(file, UnitColumns, header, [RowOf(allUnits[i], time)]);
        i := i + 1;
      }
      assert allUnits[..i] == allUnits;
      unitFile := file;

      var cache := map[];
      var j := 0;
      while j < |allUnits|
        invariant 0 <= j <= |allUnits|
        invariant cache == CacheOf(allUnits[..j])
        invariant unitFile == file && tempDir == old(tempDir) && deathFile == old(deathFile)
      {
        cache := cache[allUnits[j].tag := EntryOf(allUnits[j])];
        assert allUnits[..j + 1][..j] == allUnits[..j];
        j := j + 1;
      }
      assert allUnits[..j] == allUnits;
      unitCache := cache;
      return Recorded;
    }

    /** `on_unit_destroyed`: a death row from the cached entry when the tag is cached; the
        entry stays in the cache. */
    method OnUnitDestroyed(tag: nat, time: real) returns (emitted: bool)
      requires Valid()
      modifies this
      ensures Valid()
      ensures emitted <==> tag in unitCache && tempDir.Some?
      ensures tempDir == old(tempDir) && unitFile == old(unitFile) && unitCache == old(unitCache)
      ensures DeathRows() == if emitted then old(DeathRows()) + [DeathRowOf(tag, unitCache[tag], time)]
                             else old(DeathRows())
    {
      if tag !in unitCache {
        return false;
      }
      var row := DeathRowOf(tag, unitCache[tag], time);
      var header := deathFile == [];
      if header && tempDir.None? {
        return false;
      }
      WriteAppendsRows(deathFile, DeathColumns, header, [row]);
      assert RowLines([row]) == [Row(row)];
      deathFile := Write(deathFile, DeathColumns, header, [row]);
      return true;
    }
  }
}
