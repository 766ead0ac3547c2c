/** Helpers beside the extractor: the resource-snapshot predicate, a stable split of a unit
    collection, and the column-type tables that shrink the stored data frames. */
module ExtractorHelper {
  import opened Seqs
  import opened EngineUnits
  import Observer

  /** `resource_snap`: a remembered (snapshot) mineral field or vespene geyser. */
  predicate ResourceSnap(u: Unit) {
    u.isSnapshot && (u.isMineralField || u.isVespeneGeyser)
  }

  /** `split_units`: one pass over the units, appending each to the first list when the
      predicate holds and to the second otherwise. */
  method SplitUnits(units: seq<Unit>, p: Unit -> bool) returns (trueUnits: seq<Unit>, falseUnits: seq<Unit>)
    ensures trueUnits == Filter(units, p)
    ensures falseUnits == Filter(units, Not(p))
  {
    trueUnits := [];
    falseUnits := [];
    for i := 0 to |units|
      invariant trueUnits == Filter(units[..i], p)
      invariant falseUnits == Filter(units[..i], Not(p))
    {
      var u := units[i];
      assert units[..i + 1][..i] == units[..i];
      if p(u) {
        trueUnits := trueUnits + [u];
      } else {
        falseUnits := falseUnits + [u];
      }
    }
    assert units[..|units|] == units;
  }

  /** Each unit lands in exactly one part: the parts together are the input as a multiset, and
      each part keeps only units on its side of the predicate. */
  lemma SplitUnitsPartition(units: seq<Unit>, p: Unit -> bool)
    ensures |Filter(units, p)| + |Filter(units, Not(p))| == |units|
    ensures multiset(Filter(units, p)) + multiset(Filter(units, Not(p))) == multiset(units)
    ensures forall u :: u in Filter(units, p) ==> p(u)
    ensures forall u :: u in Filter(units, Not(p)) ==> !p(u)
  {
    FilterPartition(units, p);
  }

  /** Splitting by `resource_snap` separates the remembered resource nodes from every other unit:
      a real (non-snapshot) unit and a snapshot of anything but a resource node both land in the
      second part. */
  lemma ResourceSnapSplit(units: seq<Unit>)
    ensures forall u :: u in Filter(units, ResourceSnap) <==>
              u in units && u.isSnapshot && (u.isMineralField || u.isVespeneGeyser)
    ensures forall u :: u in Filter(units, Not(ResourceSnap)) <==>
              u in units && (!u.isSnapshot || (!u.isMineralField && !u.isVespeneGeyser))
  {
  }

  /** The pandas dtypes the tables use. */
  datatype ColumnType = Float32 | UInt8 | UInt16 | UInt32 | UInt64 | Int16 | Category | Boolean

  /** A column value of a frame. */
  datatype Value = IntValue(i: int) | RealValue(r: real) | TextValue(s: string) | BoolValue(b: bool)

  /** The range of each integer width; the other types accept any value of their kind
      (Float32 rounding is not modelled). */
  predicate Fits(t: ColumnType, v: Value) {
    match t
    case UInt8 => v.IntValue? && 0 <= v.i < 0x100
    case UInt16 => v.IntValue? && 0 <= v.i < 0x1_0000
    case UInt32 => v.IntValue? && 0 <= v.i < 0x1_0000_0000
    case UInt64 => v.IntValue? && 0 <= v.i < 0x1_0000_0000_0000_0000
    case Int16 => v.IntValue? && -0x8000 <= v.i < 0x8000
    case Float32 => v.RealValue?
    case Category => v.TextValue?
    case Boolean => v.BoolValue?
  }

  /** `optimize_unit_dtypes`. */
  const UnitTypes: map<string, ColumnType> := map[
    "timestamp" := Float32, "unit_tag" := UInt64, "unit_type" := Category, "player_id" := UInt8,
    "position_x" := Float32, "position_y" := Float32, "is_snapshot" := Boolean,
    "health" := Float32, "shield" := Float32, "energy" := Float32, "build_progress" := Float32,
    "resource_remaining" := Int16]

  /** `optimize_death_dtypes`. */
  const DeathTypes: map<string, ColumnType> := map[
    "timestamp" := Float32, "unit_tag" := UInt64, "unit_type" := Category, "player_id" := UInt8,
    "position_x" := Float32, "position_y" := Float32]

  /** `optimize_resource_dtypes`. */
  const ResourceTypes: map<string, ColumnType> := map[
    "timestamp" := Float32,
    "p1_minerals" := UInt32, "p1_vespene" := UInt32,
    "p1_supply_cap" := UInt16, "p1_supply_used" := UInt16, "p1_supply_army" := UInt16,
    "p2_minerals" := UInt32, "p2_vespene" := UInt32,
    "p2_supply_cap" := UInt16, "p2_supply_used" := UInt16, "p2_supply_army" := UInt16]

  /** `optimize_upgrade_dtypes`. */
  const UpgradeTypes: map<string, ColumnType> := map[
    "time_completed" := Float32, "upgrade" := Category, "player_id" := UInt8,
    "mineral_cost" := UInt16, "vespene_cost" := UInt16, "imputed_start" := Float32]

  /** Each player-1 column of the resource table with its player-2 counterpart. */
  const ResourcePairs: seq<(string, string)> := [
    ("p1_minerals", "p2_minerals"), ("p1_vespene", "p2_vespene"), ("p1_supply_cap", "p2_supply_cap"),
    ("p1_supply_used", "p2_supply_used"), ("p1_supply_army", "p2_supply_army")]

  /** The unit table names every column of the unit log and one more, `is_snapshot`. */
  lemma UnitTableColumns()
    ensures UnitTypes.Keys == (set c | c in Observer.UnitColumns) + {"is_snapshot"}
    ensures "is_snapshot" !in Observer.UnitColumns
  {
  }

  /** The death table covers exactly the death log's columns, typed as in the unit table. */
  lemma DeathTableColumns()
    ensures DeathTypes.Keys == set c | c in Observer.DeathColumns
    ensures forall c :: c in DeathTypes ==> c in UnitTypes && DeathTypes[c] == UnitTypes[c]
  {
    forall c | c in DeathTypes
      ensures c in UnitTypes && DeathTypes[c] == UnitTypes[c]
    {
      if c == "timestamp" {
      } else if c == "unit_tag" {
      } else if c == "unit_type" {
      } else if c == "player_id" {
      } else if c == "position_x" {
      } else {
        assert c == "position_y";
      }
    }
  }

  /** Both players' resource columns have the same types: minerals and vespene 32-bit, supply
      16-bit; apart from the timestamp, every column belongs to one such pair. */
  lemma ResourceTableSymmetric()
    ensures forall i :: 0 <= i < |ResourcePairs| ==>
              ResourcePairs[i].0 in ResourceTypes && ResourcePairs[i].1 in ResourceTypes
              && ResourceTypes[ResourcePairs[i].0] == ResourceTypes[ResourcePairs[i].1]
              && ResourceTypes[ResourcePairs[i].0] == (if i < 2 then UInt32 else UInt16)
    ensures forall c :: c in ResourceTypes <==>
              c == "timestamp" || exists i :: 0 <= i < |ResourcePairs| && (c == ResourcePairs[i].0 || c == ResourcePairs[i].1)
  {
    forall i | 0 <= i < |ResourcePairs|
      ensures ResourcePairs[i].0 in ResourceTypes && ResourcePairs[i].1 in ResourceTypes
      ensures ResourceTypes[ResourcePairs[i].0] == ResourceTypes[ResourcePairs[i].1]
      ensures ResourceTypes[ResourcePairs[i].0] == (if i < 2 then UInt32 else UInt16)
    {
      if i == 0 {
      } else if i == 1 {
      } else if i == 2 {
      } else if i == 3 {
      } else {
        assert i == 4;
      }
    }
    forall c | c in ResourceTypes && c != "timestamp"
      ensures exists i :: 0 <= i < |ResourcePairs| && (c == ResourcePairs[i].0 || c == ResourcePairs[i].1)
    {
      var i := if c == "p1_minerals" || c == "p2_minerals" then 0
               else if c == "p1_vespene" || c == "p2_vespene" then 1
               else if c == "p1_supply_cap" || c == "p2_supply_cap" then 2
               else if c == "p1_supply_used" || c == "p2_supply_used" then 3
               else 4;
      assert c == ResourcePairs[i].0 || c == ResourcePairs[i].1;
    }
  }

  lemma UpgradeTableColumns()
    ensures UpgradeTypes["mineral_cost"] == UpgradeTypes["vespene_cost"] == UInt16
    ensures UpgradeTypes["player_id"] == UInt8
    ensures UpgradeTypes["time_completed"] == UpgradeTypes["imputed_start"] == Float32
    ensures forall c :: c in UpgradeTypes && c in UnitTypes ==> UpgradeTypes[c] == UnitTypes[c]
  {
    forall c | c in UpgradeTypes && c in UnitTypes
      ensures UpgradeTypes[c] == UnitTypes[c]
    {
      assert c == "player_id";
    }
  }

  /** The values of one unit-log row, by column. */
  function UnitRowValues(row: Observer.UnitRow): map<string, Value> {
    map[
      "timestamp" := RealValue(row.timestamp), "unit_tag" := IntValue(row.tag),
      "unit_type" := TextValue(row.typeName), "player_id" := IntValue(row.playerId),
      "position_x" := RealValue(row.x), "position_y" := RealValue(row.y),
      "health" := RealValue(row.health), "shield" := RealValue(row.shield),
      "energy" := RealValue(row.energy), "build_progress" := RealValue(row.buildProgress),
      "resource_remaining" := IntValue(row.resourceRemaining)]
  }

  /** Every column of the row holds a value of its table type. */
  predicate FitsTable(values: map<string, Value>, table: map<string, ColumnType>) {
    forall c :: c in values ==> c in table && Fits(table[c], values[c])
  }

  /** A unit-log row fits the unit table exactly when its tag, player id and remaining resources
      are within UInt64, UInt8 and Int16. */
  lemma UnitRowFitsIff(row: Observer.UnitRow)
    ensures FitsTable(UnitRowValues(row), UnitTypes)
        <==> row.tag < 0x1_0000_0000_0000_0000 && 0 <= row.playerId < 0x100
             && -0x8000 <= row.resourceRemaining < 0x8000
  {
    var values := UnitRowValues(row);
    if FitsTable(values, UnitTypes) {
      assert Fits(UnitTypes["unit_tag"], values["unit_tag"]);
      assert Fits(UnitTypes["player_id"], values["player_id"]);
      assert Fits(UnitTypes["resource_remaining"], values["resource_remaining"]);
    }
  }

  /** The extractor's fallbacks are representable: an unowned unit's player id 0 and the
      resource sentinel -1 of a unit that is neither a mineral field nor a geyser. */
  lemma FallbacksFit(u: Unit, time: real)
    requires u.tag < 0x1_0000_0000_0000_0000
    requires u.owner.None? && !u.isMineralField && !u.isVespeneGeyser
    ensures Observer.RowOf(u, time).playerId == 0 && Observer.RowOf(u, time).resourceRemaining == -1
    ensures FitsTable(UnitRowValues(Observer.RowOf(u, time)), UnitTypes)
  {
    UnitRowFitsIff(Observer.RowOf(u, time));
  }
}
