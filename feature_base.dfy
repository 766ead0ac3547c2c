/** The base of every feature script: the per-replay data bundle it is initialised from, and the
    race and winner lookups over the replay's metadata. The JSON metadata and the data frames are
    modelled by the few fields the scripts read. */
module FeatureBase {
  import opened Wrappers
  import opened Seqs

  /** One entry of the metadata's `Players` list; each key may be absent. */
  datatype PlayerInfo = PlayerInfo(
    playerId: Option<int>,        // `PlayerID`
    playerName: Option<string>,   // `PlayerName`
    selectedRace: Option<string>, // `SelectedRace`
    result: Option<string>)       // `Result`, e.g. "Win" or "Loss"

  /** The replay metadata (`*_info.json`): the `Players` list and `Duration` in seconds, each of
      which may be absent. */
  datatype Metadata = Metadata(players: Option<seq<PlayerInfo>>, duration: Option<int>)

  /** `{}`: the metadata used when the bundle has none. */
  const EmptyMetadata := Metadata(None, None)

  /** A data frame whose content the shown feature scripts do not read. */
  datatype Table = Table(columns: seq<string>, rowCount: nat)

  /** One row of the resource frame (`resources.parquet`). Supply values are doubled so that
      half-supply units stay integral. */
  datatype ResourceRow = ResourceRow(
    timestamp: real,
    p1Minerals: int, p1Vespene: int, p1SupplyCap: int, p1SupplyUsed: int, p1SupplyArmy: int,
    p2Minerals: int, p2Vespene: int, p2SupplyCap: int, p2SupplyUsed: int, p2SupplyArmy: int)

  /** The bundle handed to a feature script; None means the key is absent (or, for `deaths` and
      `upgrades`, that it maps to None). */
  datatype Bundle = Bundle(
    metadata: Option<Metadata>,
    p1Name: Option<string>, p2Name: Option<string>,
    p1Id: Option<int>, p2Id: Option<int>,
    units: Option<Table>,
    resources: Option<seq<ResourceRow>>,
    deaths: Option<Table>,
    upgrades: Option<Table>)

  /** `EssentialDataMissingError`, naming the absent key. */
  datatype BundleError = EssentialDataMissing(key: string)

  /** `metadata['Players'][index]['SelectedRace']`, or None when the list, the index or the key is
      missing. */
  function RaceAt(m: Metadata, index: nat): (race: Option<string>)
    ensures race.None? <==>
              m.players.None? || index >= |m.players.value| || m.players.value[index].selectedRace.None?
    ensures race.Some? ==> race == m.players.value[index].selectedRace
  {
    match m.players
    case None => None
    case Some(players) => if index < |players| then players[index].selectedRace else None
  }

  /** The position of the first player whose result is "Win". */
  function FirstWinner(players: seq<PlayerInfo>): Option<nat> {
    FirstIndex(players, (p: PlayerInfo) => p.result == Some("Win"))
  }

  /** `winner`: the `PlayerID` of the first player whose result is "Win", or None when no player
      won (or the winning entry has no id). */
  function WinnerOf(m: Metadata): (w: Option<int>)
    ensures w.Some? ==>
              && m.players.Some?
              && exists i :: 0 <= i < |m.players.value| && m.players.value[i].result == Some("Win")
                             && m.players.value[i].playerId == w
                             && forall j :: 0 <= j < i ==> m.players.value[j].result != Some("Win")
    ensures (m.players.None? || forall i :: 0 <= i < |m.players.value| ==> m.players.value[i].result != Some("Win"))
            ==> w.None?
    ensures m.players.Some? ==>
              forall i :: 0 <= i < |m.players.value| && m.players.value[i].result == Some("Win")
                          && (forall j :: 0 <= j < i ==> m.players.value[j].result != Some("Win"))
                          ==> w == m.players.value[i].playerId
  {
    var players := m.players.GetOr([]);
    match FirstWinner(players)
    case None => None
    case Some(i) => players[i].playerId
  }

  /** The state a feature script keeps for the replay it is processing. */
  class FeatureScript {
    var metadata: Metadata
    var p1Name: Option<string>
    var p2Name: Option<string>
    var p1Id: Option<int>
    var p2Id: Option<int>
    var units: Option<Table>
    var resources: Option<seq<ResourceRow>>
    var deaths: Option<Table>
    var upgrades: Option<Table>

    constructor()
      ensures metadata == EmptyMetadata
      ensures units.None? && resources.None? && deaths.None? && upgrades.None?
    {
      metadata := EmptyMetadata;
      p1Name, p2Name, p1Id, p2Id := None, None, None, None;
      units, resources, deaths, upgrades := None, None, None, None;
    }

    /** `_init_bundle`. Metadata and names are taken first; then `units` and `resources`, raising
        on the first that is absent and leaving the later fields as they were; `deaths` and
        `upgrades` are optional. */
    method InitBundle(b: Bundle) returns (err: Option<BundleError>)
      modifies this
      ensures err.Some? <==> b.units.None? || b.resources.None?
      ensures err.Some? ==> err.value == EssentialDataMissing(if b.units.None? then "units" else "resources")
      ensures metadata == b.metadata.GetOr(EmptyMetadata)
      ensures p1Name == b.p1Name && p2Name == b.p2Name && p1Id == b.p1Id && p2Id == b.p2Id
      ensures units == (if b.units.Some? then b.units else old(units))
      ensures resources == (if b.units.Some? && b.resources.Some? then b.resources else old(resources))
      ensures deaths == (if err.None? then b.deaths else old(deaths))
      ensures upgrades == (if err.None? then b.upgrades else old(upgrades))
    {
      metadata := b.metadata.GetOr(EmptyMetadata);
      p1Name, p2Name := b.p1Name, b.p2Name;
      p1Id, p2Id := b.p1Id, b.p2Id;
      if b.units.None? {
        return Some(EssentialDataMissing("units"));
      }
      units := b.units;
      if b.resources.None? {
        return Some(EssentialDataMissing("resources"));
      }
      resources := b.resources;
      deaths := b.deaths;
      upgrades := b.upgrades;
      return None;
    }

    /** `p1_race`: the first listed player's race. */
    function P1Race(): Option<string>
      reads this
    {
      RaceAt(metadata, 0)
    }

    /** `p2_race`: the second listed player's race. */
    function P2Race(): Option<string>
      reads this
    {
      RaceAt(metadata, 1)
    }

    function Winner(): Option<int>
      reads this
    {
      WinnerOf(metadata)
    }
  }
}
