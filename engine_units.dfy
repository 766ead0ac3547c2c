/** A unit as the replay engine exposes it on one step (`sc2.unit.Unit`): only the fields the
    extractor reads. */
module EngineUnits {
  import opened Wrappers

  datatype Unit = Unit(
    tag: nat,               // 64-bit identifier, stable for the unit's lifetime
    typeName: string,       // `unit.type_id.name`
    owner: Option<int>,     // `unit.owner_id`; None when reading it raises AttributeError
    x: real,
    y: real,
    health: real,
    shield: real,
    energy: real,
    buildProgress: real,
    isSnapshot: bool,
    isMineralField: bool,
    isVespeneGeyser: bool,
    mineralContents: int,
    vespeneContents: int)
}
