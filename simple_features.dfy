/** The `SimpleFeatures` script: from a replay's resource frame it derives, for each player, the
    worker and army supply at three and four minutes, the mineral and vespene collection rates
    between two and four minutes and the largest banks up to four minutes, and emits one row per
    player's point of view. Arithmetic is exact: supplies and rates are `real`. */
module SimpleFeatures {
  import opened Wrappers
  import opened Seqs
  import opened FeatureBase

  /** Worker and army supply of both players (halved from the doubled engine values). */
  datatype Supply = Supply(p1Workers: real, p1Army: real, p2Workers: real, p2Army: real)

  /** Minerals and vespene per minute of both players. */
  datatype Rates = Rates(p1Mpm: real, p1Vpm: real, p2Mpm: real, p2Vpm: real)

  /** The largest mineral and vespene banks of both players. */
  datatype Bank = Bank(p1Minerals: int, p1Vespene: int, p2Minerals: int, p2Vespene: int)

  /** Why processing a replay raised. */
  datatype FeatureError =
    | MissingData(key: string)            // EssentialDataMissingError from `_init_bundle`
    | NoSnapshotAtOrBefore(time: int)     // IndexError from `.iloc[-1]` on an empty selection
    | ZeroInterval                        // ZeroDivisionError for equal start and end times

  /** The position of the latest row at or before `t`: the last row in frame order with
      `timestamp <= t`. */
  function LatestAtOrBefore(rows: seq<ResourceRow>, t: int): Option<nat> {
    LastIndex(rows, (r: ResourceRow) => r.timestamp <= t as real)
  }

  /** `get_supply_at_t`. */
  function SupplyAt(df: Option<seq<ResourceRow>>, t: int): (r: Result<Supply, FeatureError>)
    ensures df.None? || df.value == [] ==> r == Ok(Supply(0.0, 0.0, 0.0, 0.0))
    ensures df.Some? && df.value != [] ==>
              (r.Err? <==> forall i :: 0 <= i < |df.value| ==> df.value[i].timestamp > t as real)
    ensures r.Err? ==> r.error == NoSnapshotAtOrBefore(t)
    ensures df.Some? && df.value != [] && r.Ok? ==>
              exists k :: 0 <= k < |df.value| && df.value[k].timestamp <= t as real
                && (forall j :: k < j < |df.value| ==> df.value[j].timestamp > t as real)
                && r.value.p1Workers + r.value.p1Army == df.value[k].p1SupplyUsed as real / 2.0
                && r.value.p1Army == df.value[k].p1SupplyArmy as real / 2.0
                && r.value.p2Workers + r.value.p2Army == df.value[k].p2SupplyUsed as real / 2.0
                && r.value.p2Army == df.value[k].p2SupplyArmy as real / 2.0
  {
    if df.None? || df.value == [] then Ok(Supply(0.0, 0.0, 0.0, 0.0))
    else match LatestAtOrBefore(df.value, t)
      case None => Err(NoSnapshotAtOrBefore(t))
      case Some(k) =>
        var s := df.value[k];
        Ok(Supply((s.p1SupplyUsed - s.p1SupplyArmy) as real / 2.0, s.p1SupplyArmy as real / 2.0,
                  (s.p2SupplyUsed - s.p2SupplyArmy) as real / 2.0, s.p2SupplyArmy as real / 2.0))
  }

  /** `get_collection_rates`: the change over the interval divided by its length in minutes. */
  function CollectionRates(df: Option<seq<ResourceRow>>, startTime: int, endTime: int): (r: Result<Rates, FeatureError>)
    ensures df.None? || df.value == [] ==> r == Ok(Rates(0.0, 0.0, 0.0, 0.0))
    ensures df.Some? && df.value != [] ==>
              (r.Err? <==> LatestAtOrBefore(df.value, startTime).None? || LatestAtOrBefore(df.value, endTime).None?
                           || endTime == startTime)
    ensures df.Some? && df.value != [] && r.Ok? ==>
              var s := df.value[LatestAtOrBefore(df.value, startTime).value];
              var e := df.value[LatestAtOrBefore(df.value, endTime).value];
              var minutes := (endTime - startTime) as real / 60.0;
              && r.value.p1Mpm * minutes == (e.p1Minerals - s.p1Minerals) as real
              && r.value.p1Vpm * minutes == (e.p1Vespene - s.p1Vespene) as real
              && r.value.p2Mpm * minutes == (e.p2Minerals - s.p2Minerals) as real
              && r.value.p2Vpm * minutes == (e.p2Vespene - s.p2Vespene) as real
  {
    if df.None? || df.value == [] then Ok(Rates(0.0, 0.0, 0.0, 0.0))
    else match LatestAtOrBefore(df.value, startTime)
      case None => Err(NoSnapshotAtOrBefore(startTime))
      case Some(ks) =>
        match LatestAtOrBefore(df.value, endTime)
        case None => Err(NoSnapshotAtOrBefore(endTime))
        case Some(ke) =>
          var s := df.value[ks];
          var e := df.value[ke];
          var minutes := (endTime - startTime) as real / 60.0;
          if minutes == 0.0 then Err(ZeroInterval)
          else Ok(Rates((e.p1Minerals - s.p1Minerals) as real / minutes, (e.p1Vespene - s.p1Vespene) as real / minutes,
                        (e.p2Minerals - s.p2Minerals) as real / minutes, (e.p2Vespene - s.p2Vespene) as real / minutes))
  }

  /** The rows at or before `t`. */
  function RowsUpTo(rows: seq<ResourceRow>, t: int): seq<ResourceRow> {
    Filter(rows, (r: ResourceRow) => r.timestamp <= t as real)
  }

  /** `get_max_bank`: the column maxima over the rows at or before `endTime`; zeros when there is
      no frame, it is empty, or no row qualifies. */
  function MaxBank(df: Option<seq<ResourceRow>>, endTime: int): (b: Bank)
    ensures df.None? || RowsUpTo(df.value, endTime) == [] ==> b == Bank(0, 0, 0, 0)
    ensures df.Some? ==> forall r :: r in df.value && r.timestamp <= endTime as real ==>
              r.p1Minerals <= b.p1Minerals && r.p1Vespene <= b.p1Vespene
              && r.p2Minerals <= b.p2Minerals && r.p2Vespene <= b.p2Vespene
    ensures df.Some? && RowsUpTo(df.value, endTime) != [] ==>
              && (exists r :: r in df.value && r.timestamp <= endTime as real && r.p1Minerals == b.p1Minerals)
              && (exists r :: r in df.value && r.timestamp <= endTime as real && r.p1Vespene == b.p1Vespene)
              && (exists r :: r in df.value && r.timestamp <= endTime as real && r.p2Minerals == b.p2Minerals)
              && (exists r :: r in df.value && r.timestamp <= endTime as real && r.p2Vespene == b.p2Vespene)
  {
    if df.None? then Bank(0, 0, 0, 0)
    else
      var rows := RowsUpTo(df.value, endTime);
      if rows == [] then Bank(0, 0, 0, 0)
      else Bank(MaxBy(rows, (r: ResourceRow) => r.p1Minerals), MaxBy(rows, (r: ResourceRow) => r.p1Vespene),
                MaxBy(rows, (r: ResourceRow) => r.p2Minerals), MaxBy(rows, (r: ResourceRow) => r.p2Vespene))
  }

  /** One output row: the features from one player's point of view. */
  datatype FeatureRow = FeatureRow(
    replayId: string,
    povRace: Option<string>, enemyRace: Option<string>,
    povId: Option<string>, enemyId: Option<string>,
    win: bool,
    workers3: real, armySupply3: real, workersAdv3: real, armySupplyAdv3: real,
    workers4: real, armySupply4: real, workersAdv4: real, armySupplyAdv4: real,
    workersDelta34: real, armySupplyDelta34: real,
    mpm24: real, vpm24: real, mpmAdv24: real, vpmAdv24: real,
    maxMineralBank4m: int, maxVespeneBank4m: int)

  /** The CSV columns, in the order the feature dictionaries define them. */
  const FeatureColumns: seq<string> := [
    "replay_id", "pov_race", "enemy_race", "pov_ID", "enemy_ID", "win",
    "workers3", "army_supply3", "workers_adv3", "army_supply_adv3",
    "workers4", "army_supply4", "workers_adv4", "army_supply_adv4",
    "workers_delta_34", "army_supply_delta_34",
    "mpm_2_4", "vpm_2_4", "mpm_adv_2_4", "vpm_adv_2_4",
    "max_mineral_bank_4m", "max_vespene_bank_4m"]

  /** One player's measured quantities. */
  datatype PlayerStats = PlayerStats(
    workers3: real, army3: real, workers4: real, army4: real,
    mpm: real, vpm: real, maxMinerals: int, maxVespene: int)

  function P1Stats(s3: Supply, s4: Supply, rates: Rates, bank: Bank): PlayerStats {
    PlayerStats(s3.p1Workers, s3.p1Army, s4.p1Workers, s4.p1Army, rates.p1Mpm, rates.p1Vpm,
                bank.p1Minerals, bank.p1Vespene)
  }

  function P2Stats(s3: Supply, s4: Supply, rates: Rates, bank: Bank): PlayerStats {
    PlayerStats(s3.p2Workers, s3.p2Army, s4.p2Workers, s4.p2Army, rates.p2Mpm, rates.p2Vpm,
                bank.p2Minerals, bank.p2Vespene)
  }

  /** The row of the player `mine` against the player `theirs`. */
  function PovRow(replayId: string, povRace: Option<string>, enemyRace: Option<string>,
                  povId: Option<string>, enemyId: Option<string>, win: bool,
                  mine: PlayerStats, theirs: PlayerStats): FeatureRow
  {
    FeatureRow(replayId, povRace, enemyRace, povId, enemyId, win,
               mine.workers3, mine.army3, mine.workers3 - theirs.workers3, mine.army3 - theirs.army3,
               mine.workers4, mine.army4, mine.workers4 - theirs.workers4, mine.army4 - theirs.army4,
               mine.workers4 - mine.workers3, mine.army4 - mine.army3,
               mine.mpm, mine.vpm, mine.mpm - theirs.mpm, mine.vpm - theirs.vpm,
               mine.maxMinerals, mine.maxVespene)
  }

  /** Both players' measured quantities (player 1's first), or the error a helper raises; the
      helpers run in the script's order. */
  function Measure(df: Option<seq<ResourceRow>>): Result<(PlayerStats, PlayerStats), FeatureError> {
    match SupplyAt(df, 3 * 60)
    case Err(e) => Err(e)
    case Ok(s3) =>
      match SupplyAt(df, 4 * 60)
      case Err(e) => Err(e)
      case Ok(s4) =>
        match CollectionRates(df, 2 * 60, 4 * 60)
        case Err(e) => Err(e)
        case Ok(rates) =>
          var bank := MaxBank(df, 4 * 60);
          Ok((P1Stats(s3, s4, rates, bank), P2Stats(s3, s4, rates, bank)))
  }

  /** Player 1's row, then player 2's, each against the other. */
  function MirroredRows(replayId: string, m: Metadata, p1Name: Option<string>, p2Name: Option<string>,
                        p1: PlayerStats, p2: PlayerStats): seq<FeatureRow>
  {
    [PovRow(replayId, RaceAt(m, 0), RaceAt(m, 1), p1Name, p2Name, WinnerOf(m) == Some(1), p1, p2),
     PovRow(replayId, RaceAt(m, 1), RaceAt(m, 0), p2Name, p1Name, WinnerOf(m) == Some(2), p2, p1)]
  }

  /** What `process_replay` returns for a bundle: two rows, player 1's then player 2's, or the
      error it raises. */
  function Features(b: Bundle, replayId: string): Result<seq<FeatureRow>, FeatureError> {
    if b.units.None? then Err(MissingData("units"))
    else if b.resources.None? then Err(MissingData("resources"))
    else
      match Measure(b.resources)
      case Err(e) => Err(e)
      case Ok(stats) =>
        Ok(MirroredRows(replayId, b.metadata.GetOr(EmptyMetadata), b.p1Name, b.p2Name, stats.0, stats.1))
  }

  /** The key-by-key assignments that fill one feature dictionary from the two players' values. */
  method FillRow(row: FeatureRow, mine: PlayerStats, theirs: PlayerStats) returns (filled: FeatureRow)
    ensures filled == PovRow(row.replayId, row.povRace, row.enemyRace, row.povId, row.enemyId, row.win, mine, theirs)
  {
    filled := row;
    filled := filled.(workers3 := mine.workers3, armySupply3 := mine.army3,
                      workersAdv3 := mine.workers3 - theirs.workers3, armySupplyAdv3 := mine.army3 - theirs.army3);
    filled := filled.(workers4 := mine.workers4, armySupply4 := mine.army4,
                      workersAdv4 := mine.workers4 - theirs.workers4, armySupplyAdv4 := mine.army4 - theirs.army4);
    filled := filled.(workersDelta34 := mine.workers4 - mine.workers3, armySupplyDelta34 := mine.army4 - mine.army3);
    filled := filled.(mpm24 := mine.mpm, vpm24 := mine.vpm, mpmAdv24 := mine.mpm - theirs.mpm, vpmAdv24 := mine.vpm - theirs.vpm);
    filled := filled.(maxMineralBank4m := mine.maxMinerals, maxVespeneBank4m := mine.maxVespene);
  }

  /** `process_replay`: initialise from the bundle, compute the helpers, then fill the two feature
      dictionaries key by key. */
  method ProcessReplay(script: FeatureScript, b: Bundle, replayId: string)
    returns (r: Result<seq<FeatureRow>, FeatureError>)
    modifies script
    ensures r == Features(b, replayId)
    ensures script.metadata == b.metadata.GetOr(EmptyMetadata)
    ensures script.p1Name == b.p1Name && script.p2Name == b.p2Name
    ensures script.p1Id == b.p1Id && script.p2Id == b.p2Id
    ensures script.units == (if b.units.Some? then b.units else old(script.units))
    ensures script.resources == (if b.units.Some? && b.resources.Some? then b.resources else old(script.resources))
    ensures script.deaths == (if b.units.Some? && b.resources.Some? then b.deaths else old(script.deaths))
    ensures script.upgrades == (if b.units.Some? && b.resources.Some? then b.upgrades else old(script.upgrades))
  {
    var err := script.InitBundle(b);
    if err.Some? {
      return Err(MissingData(err.value.key));
    }
    var p1Win := script.Winner() == Some(1);
    var p2Win := script.Winner() == Some(2);
    var p1 := FeatureRow(replayId, script.P1Race(), script.P2Race(), script.p1Name, script.p2Name, p1Win,
                         0.0, 0.0, 0.0, 0.0, 0.0, 0.0, 0.0, 0.0, 0.0, 0.0, 0.0, 0.0, 0.0, 0.0, 0, 0);
    var p2 := FeatureRow(replayId, script.P2Race(), script.P1Race(), script.p2Name, script.p1Name, p2Win,
                         0.0, 0.0, 0.0, 0.0, 0.0, 0.0, 0.0, 0.0, 0.0, 0.0, 0.0, 0.0, 0.0, 0.0, 0, 0);
    var supply3 := SupplyAt(script.resources, 3 * 60);
    if supply3.Err? {
      return Err(supply3.error);
    }
    var supply4 := SupplyAt(script.resources, 4 * 60);
    if supply4.Err? {
      return Err(supply4.error);
    }
    var rates := CollectionRates(script.resources, 2 * 60, 4 * 60);
    if rates.Err? {
      return Err(rates.error);
    }
    var bank := MaxBank(script.resources, 4 * 60);
    var s3, s4, rt := supply3.value, supply4.value, rates.value;
    assert script.resources == b.resources && script.metadata == b.metadata.GetOr(EmptyMetadata);
    p1 := FillRow(p1, P1Stats(s3, s4, rt, bank), P2Stats(s3, s4, rt, bank));
    p2 := FillRow(p2, P2Stats(s3, s4, rt, bank), P1Stats(s3, s4, rt, bank));
    return Ok([p1, p2]);
  }

  /** The two rows mirror each other: same replay, races and names swapped, every advantage
      negated, each delta the four-minute value minus the three-minute value, and at most one win. */
  lemma FeaturesMirror(b: Bundle, replayId: string)
    requires Features(b, replayId).Ok?
    ensures var rows := Features(b, replayId).value;
      && |rows| == 2
      && rows[0].replayId == replayId && rows[1].replayId == replayId
      && rows[1].povRace == rows[0].enemyRace && rows[1].enemyRace == rows[0].povRace
      && rows[1].povId == rows[0].enemyId && rows[1].enemyId == rows[0].povId
      && rows[0].povId == b.p1Name && rows[1].povId == b.p2Name
      && !(rows[0].win && rows[1].win)
      && rows[1].workersAdv3 == -rows[0].workersAdv3 && rows[1].armySupplyAdv3 == -rows[0].armySupplyAdv3
      && rows[1].workersAdv4 == -rows[0].workersAdv4 && rows[1].armySupplyAdv4 == -rows[0].armySupplyAdv4
      && rows[1].mpmAdv24 == -rows[0].mpmAdv24 && rows[1].vpmAdv24 == -rows[0].vpmAdv24
      && rows[0].workersAdv3 == rows[0].workers3 - rows[1].workers3
      && rows[0].armySupplyAdv3 == rows[0].armySupply3 - rows[1].armySupply3
      && rows[0].workersAdv4 == rows[0].workers4 - rows[1].workers4
      && rows[0].armySupplyAdv4 == rows[0].armySupply4 - rows[1].armySupply4
      && rows[0].mpmAdv24 == rows[0].mpm24 - rows[1].mpm24
      && rows[0].vpmAdv24 == rows[0].vpm24 - rows[1].vpm24
      && (forall i :: 0 <= i < 2 ==>
            rows[i].workersDelta34 == rows[i].workers4 - rows[i].workers3
            && rows[i].armySupplyDelta34 == rows[i].armySupply4 - rows[i].armySupply3)
  {
  }

  /** The three-minute supplies of the rows come from the latest snapshot at or before three
      minutes: each player's workers plus army are half its doubled used supply, and its army is
      half its doubled army supply. */
  lemma FeaturesSupplyTotals(b: Bundle, replayId: string)
    requires Features(b, replayId).Ok?
    requires b.resources.Some? && b.resources.value != []
    ensures LatestAtOrBefore(b.resources.value, 3 * 60).Some?
    ensures var df := b.resources.value; var s := df[LatestAtOrBefore(df, 3 * 60).value];
      var rows := Features(b, replayId).value;
      && rows[0].workers3 + rows[0].armySupply3 == s.p1SupplyUsed as real / 2.0
      && rows[0].armySupply3 == s.p1SupplyArmy as real / 2.0
      && rows[1].workers3 + rows[1].armySupply3 == s.p2SupplyUsed as real / 2.0
      && rows[1].armySupply3 == s.p2SupplyArmy as real / 2.0
  {
    FeaturesFromMeasure(b, replayId);
    MeasureSupply3(b.resources);
  }

  /** A successful run's rows are the mirrored rows of the measured quantities. */
  lemma FeaturesFromMeasure(b: Bundle, replayId: string)
    requires Features(b, replayId).Ok?
    ensures b.resources.Some? && Measure(b.resources).Ok?
    ensures var stats := Measure(b.resources).value; var rows := Features(b, replayId).value;
      && rows[0].workers3 == stats.0.workers3 && rows[0].armySupply3 == stats.0.army3
      && rows[1].workers3 == stats.1.workers3 && rows[1].armySupply3 == stats.1.army3
  {
  }

  /** The three-minute quantities come from the supply lookup at three minutes. */
  lemma MeasureSupply3(df: Option<seq<ResourceRow>>)
    requires Measure(df).Ok?
    ensures SupplyAt(df, 3 * 60).Ok?
    ensures var stats := Measure(df).value; var s3 := SupplyAt(df, 3 * 60).value;
      && stats.0.workers3 == s3.p1Workers && stats.0.army3 == s3.p1Army
      && stats.1.workers3 == s3.p2Workers && stats.1.army3 == s3.p2Army
  {
  }

  /** `winner` decides the two `win` flags: player 1 wins iff the winner id is 1, player 2 iff it
      is 2. */
  lemma FeaturesWin(b: Bundle, replayId: string)
    requires Features(b, replayId).Ok?
    ensures var rows := Features(b, replayId).value; var w := WinnerOf(b.metadata.GetOr(EmptyMetadata));
      (rows[0].win <==> w == Some(1)) && (rows[1].win <==> w == Some(2))
  {
  }

  /** Processing fails exactly when `units` or `resources` is absent, or when the resource frame
      has rows but none at or before two minutes (the earliest time any helper looks up). */
  lemma FeaturesErrIff(b: Bundle, replayId: string)
    ensures Features(b, replayId).Err? <==>
              b.units.None? || b.resources.None?
              || (b.resources.value != [] && forall i :: 0 <= i < |b.resources.value| ==> b.resources.value[i].timestamp > 120.0)
  {
    if b.units.Some? && b.resources.Some? {
      MeasureErrIff(b.resources.value);
    }
  }

  /** With the resource frame present, the measurements fail exactly when no snapshot is at or
      before two minutes, the start of the collection-rate window. */
  lemma MeasureErrIff(df: seq<ResourceRow>)
    ensures Measure(Some(df)).Err? <==> df != [] && forall i :: 0 <= i < |df| ==> df[i].timestamp > 120.0
  {
    if df != [] {
      var k2 := LatestAtOrBefore(df, 2 * 60);
      if k2.Some? {
        var k := k2.value;
        assert df[k].timestamp <= (3 * 60) as real;
        assert df[k].timestamp <= (4 * 60) as real;
        assert SupplyAt(Some(df), 3 * 60).Ok?;
        assert SupplyAt(Some(df), 4 * 60).Ok?;
        assert LatestAtOrBefore(df, 4 * 60).Some?;
        assert CollectionRates(Some(df), 2 * 60, 4 * 60).Ok?;
      } else {
        assert forall i :: 0 <= i < |df| ==> df[i].timestamp > (2 * 60) as real;
      }
    }
  }

  /** An empty resource frame gives all-zero supplies, rates and banks. */
  /** Every supply, rate and bank column of a row, with its advantages and deltas, is zero. */
  predicate AllMeasuresZero(row: FeatureRow) {
    && row.workers3 == 0.0 && row.armySupply3 == 0.0 && row.workersAdv3 == 0.0 && row.armySupplyAdv3 == 0.0
    && row.workers4 == 0.0 && row.armySupply4 == 0.0 && row.workersAdv4 == 0.0 && row.armySupplyAdv4 == 0.0
    && row.workersDelta34 == 0.0 && row.armySupplyDelta34 == 0.0
    && row.mpm24 == 0.0 && row.vpm24 == 0.0 && row.mpmAdv24 == 0.0 && row.vpmAdv24 == 0.0
    && row.maxMineralBank4m == 0 && row.maxVespeneBank4m == 0
  }

  lemma EmptyResourcesGiveZeros(b: Bundle, replayId: string)
    requires b.units.Some? && b.resources == Some([])
    ensures Features(b, replayId).Ok?
    ensures forall row :: row in Features(b, replayId).value ==> AllMeasuresZero(row)
  {
  }
}
