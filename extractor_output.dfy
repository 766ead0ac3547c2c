/** `save_data_from_bot`: after a perspective's run, the unit log is grouped by player and each
    group goes to its own CSV file; the death log goes to one file. */
module ExtractorOutput {
  import opened Wrappers
  import opened Seqs
  import opened Observer
  import opened ReplayNames

  /** The player id of every row, in row order. */
  function PlayerIds(rows: seq<UnitRow>): (ids: seq<int>)
    ensures |ids| == |rows|
    ensures forall i :: 0 <= i < |rows| ==> ids[i] == rows[i].playerId
  {
    seq(|rows|, i requires 0 <= i < |rows| => rows[i].playerId)
  }

  /** The rows of one player, in row order. */
  function RowsOfPlayer(rows: seq<UnitRow>, playerId: int): seq<UnitRow> {
    Filter(rows, (r: UnitRow) => r.playerId == playerId)
  }

  lemma RowsOfPlayerSnoc(rows: seq<UnitRow>, r: UnitRow, playerId: int)
    ensures RowsOfPlayer(rows + [r], playerId)
         == RowsOfPlayer(rows, playerId) + (if r.playerId == playerId then [r] else [])
  {
    assert (rows + [r])[..|rows|] == rows;
  }

  /** Every key of the grouping has at least one row, so no written group is empty. */
  lemma GroupNonEmpty(rows: seq<UnitRow>, playerId: int)
    requires playerId in PlayerIds(rows)
    ensures RowsOfPlayer(rows, playerId) != []
  {
    var i :| 0 <= i < |rows| && PlayerIds(rows)[i] == playerId;
    assert rows[i] in RowsOfPlayer(rows, playerId);
  }

  /** A player id that no row carries has no rows. */
  lemma {:induction false} RowsOfAbsentPlayer(rows: seq<UnitRow>, playerId: int)
    requires playerId !in PlayerIds(rows)
    ensures RowsOfPlayer(rows, playerId) == []
  {
    if rows != [] {
      var init := rows[..|rows| - 1];
      assert rows == init + [rows[|rows| - 1]];
      assert PlayerIds(rows)[|rows| - 1] == rows[|rows| - 1].playerId;
      assert forall k :: 0 <= k < |init| ==> PlayerIds(init)[k] == PlayerIds(rows)[k];
      RowsOfAbsentPlayer(init, playerId);
      RowsOfPlayerSnoc(init, rows[|rows| - 1], playerId);
    }
  }

  /** The state of the `player_data` loop after the first `i` rows. */
  ghost predicate GroupedUpTo(rows: seq<UnitRow>, i: nat, order: seq<int>, groups: map<int, seq<UnitRow>>) {
    && i <= |rows|
    && order == FirstOccurrences(PlayerIds(rows[..i]))
    && (forall p :: p in groups <==> p in order)
    && (forall p :: p in groups ==> groups[p] == RowsOfPlayer(rows[..i], p))
  }

  /** The `player_data` loop: keys in order of first appearance, each mapped to that player's
      rows in their original order. */
  method GroupByPlayer(rows: seq<UnitRow>) returns (order: seq<int>, groups: map<int, seq<UnitRow>>)
    ensures order == FirstOccurrences(PlayerIds(rows))
    ensures forall p :: p in groups <==> p in order
    ensures forall p :: p in groups ==> groups[p] == RowsOfPlayer(rows, p)
  {
    order := [];
    groups := map[];
    var i := 0;
    while i < |rows|
      invariant 0 <= i <= |rows|
      invariant GroupedUpTo(rows, i, order, groups)
    {
      var r := rows[i];
      ghost var order0, groups0 := order, groups;
      if r.playerId in groups {
        groups := groups[r.playerId := groups[r.playerId] + [r]];
      } else {
        order := order + [r.playerId];
        groups := groups[r.playerId := [r]];
      }
      GroupAdvance(rows, i, order0, groups0, order, groups);
      i := i + 1;
    }
    assert rows[..i] == rows;
  }

  /** One iteration of the `player_data` loop: a new key is appended to the order with a
      one-row group, a known key's group grows by the row. */
  lemma GroupAdvance(rows: seq<UnitRow>, i: nat, order0: seq<int>, groups0: map<int, seq<UnitRow>>,
                     order: seq<int>, groups: map<int, seq<UnitRow>>)
    requires i < |rows| && GroupedUpTo(rows, i, order0, groups0)
    requires rows[i].playerId in groups0 ==>
               order == order0 && groups == groups0[rows[i].playerId := groups0[rows[i].playerId] + [rows[i]]]
    requires rows[i].playerId !in groups0 ==>
               order == order0 + [rows[i].playerId] && groups == groups0[rows[i].playerId := [rows[i]]]
    ensures GroupedUpTo(rows, i + 1, order, groups)
  {
    var r := rows[i];
    GroupStep(rows, i);
    if r.playerId !in groups0 {
      assert r.playerId !in PlayerIds(rows[..i]);
      assert [] + [r] == [r];
    }
    GroupUpdate(rows, i, groups0, groups);
  }

  /** How one more row changes the key order. */
  lemma GroupStep(rows: seq<UnitRow>, i: nat)
    requires i < |rows|
    ensures FirstOccurrences(PlayerIds(rows[..i + 1]))
         == if rows[i].playerId in FirstOccurrences(PlayerIds(rows[..i]))
            then FirstOccurrences(PlayerIds(rows[..i]))
            else FirstOccurrences(PlayerIds(rows[..i])) + [rows[i].playerId]
  {
    var r := rows[i];
    assert rows[..i + 1] == rows[..i] + [r];
    assert PlayerIds(rows[..i + 1]) == PlayerIds(rows[..i]) + [r.playerId];
    FirstOccurrencesSnoc(PlayerIds(rows[..i]), r.playerId);
  }

  /** Appending row `i` to its player's group keeps every group equal to its player's rows. */
  lemma GroupUpdate(rows: seq<UnitRow>, i: nat, before: map<int, seq<UnitRow>>, after: map<int, seq<UnitRow>>)
    requires i < |rows|
    requires forall p :: p in before ==> before[p] == RowsOfPlayer(rows[..i], p)
    requires rows[i].playerId !in before ==> rows[i].playerId !in PlayerIds(rows[..i])
    requires after == before[rows[i].playerId :=
                (if rows[i].playerId in before then before[rows[i].playerId] else []) + [rows[i]]]
    ensures forall p :: p in after ==> after[p] == RowsOfPlayer(rows[..i + 1], p)
  {
    var r := rows[i];
    forall p | p in after
      ensures after[p] == RowsOfPlayer(rows[..i + 1], p)
    {
      GroupStepOf(rows, i, p);
      if p == r.playerId && p !in before {
        RowsOfAbsentPlayer(rows[..i], p);
      }
    }
  }

  /** How one more row changes one player's rows. */
  lemma GroupStepOf(rows: seq<UnitRow>, i: nat, p: int)
    requires i < |rows|
    ensures RowsOfPlayer(rows[..i + 1], p)
         == RowsOfPlayer(rows[..i], p) + (if rows[i].playerId == p then [rows[i]] else [])
  {
    assert rows[..i + 1] == rows[..i] + [rows[i]];
    RowsOfPlayerSnoc(rows[..i], rows[i], p);
  }

  /** One written CSV file: its path and its rows (the header is the row type's columns). */
  datatype OutputFile =
    | UnitCsv(path: string, unitRows: seq<UnitRow>)
    | DeathCsv(path: string, deathRows: seq<DeathRow>)

  /** `replay_name_parts[1]` or `[2]` on a stem with fewer than three fields raises IndexError. */
  datatype SaveError = MalformedReplayName(stem: string)

  function UnitPath(sp: StemParts, observedId: int, playerId: int): string {
    OutputDir(sp.game) + "/" + UnitFileName(sp, observedId, playerId)
  }

  function DeathPath(sp: StemParts, observedId: int): string {
    OutputDir(sp.game) + "/" + DeathFileName(sp, observedId)
  }

  /** The unit files of one perspective: one per player, in first-appearance order. */
  function UnitFiles(rows: seq<UnitRow>, sp: StemParts, observedId: int): seq<OutputFile> {
    var order := FirstOccurrences(PlayerIds(rows));
    seq(|order|, i requires 0 <= i < |order| =>
      UnitCsv(UnitPath(sp, observedId, order[i]), RowsOfPlayer(rows, order[i])))
  }

  /** Every row lands in the file of its own player, each file holds one player's rows in log
      order, no file is empty, and the files' players are distinct. */
  lemma UnitFilesPartition(rows: seq<UnitRow>, sp: StemParts, observedId: int)
    ensures var files := UnitFiles(rows, sp, observedId); var order := FirstOccurrences(PlayerIds(rows));
      && |files| == |order|
      && NoDuplicates(order)
      && (forall i :: 0 <= i < |files| ==>
            files[i].UnitCsv? && files[i].unitRows != []
            && files[i].path == UnitPath(sp, observedId, order[i])
            && files[i].unitRows == RowsOfPlayer(rows, order[i]))
      && (forall k :: 0 <= k < |rows| ==>
            exists i :: 0 <= i < |files| && rows[k] in files[i].unitRows && order[i] == rows[k].playerId)
  {
    var files := UnitFiles(rows, sp, observedId);
    var order := FirstOccurrences(PlayerIds(rows));
    forall i | 0 <= i < |files|
      ensures files[i].unitRows != []
    {
      assert order[i] in PlayerIds(rows);
      GroupNonEmpty(rows, order[i]);
    }
    forall k | 0 <= k < |rows|
      ensures exists i :: 0 <= i < |files| && rows[k] in files[i].unitRows && order[i] == rows[k].playerId
    {
      assert PlayerIds(rows)[k] == rows[k].playerId;
      assert rows[k].playerId in order;
      var i :| 0 <= i < |order| && order[i] == rows[k].playerId;
      assert rows[k] in RowsOfPlayer(rows, order[i]);
    }
  }

  /** Step `i` of the unit-file loop: the grouped player exists and has rows, and its file is
      the next expected one. */
  lemma UnitFileStep(rows: seq<UnitRow>, sp: StemParts, observedId: int,
                     order: seq<int>, groups: map<int, seq<UnitRow>>, i: nat)
    requires order == FirstOccurrences(PlayerIds(rows))
    requires forall p :: p in groups <==> p in order
    requires forall p :: p in groups ==> groups[p] == RowsOfPlayer(rows, p)
    requires i < |order|
    ensures order[i] in groups && groups[order[i]] != []
    ensures UnitFiles(rows, sp, observedId)[..i + 1]
         == UnitFiles(rows, sp, observedId)[..i] + [UnitCsv(UnitPath(sp, observedId, order[i]), groups[order[i]])]
  {
    assert order[i] in PlayerIds(rows);
    GroupNonEmpty(rows, order[i]);
    PrefixSnoc(UnitFiles(rows, sp, observedId), i);
  }

  /** The unit part of `save_data_from_bot`: group the rows by player, parse the replay stem,
      then write one file per player in first-appearance order, skipping an empty group. */
  method SaveUnitFiles(rows: seq<UnitRow>, stem: string, observedId: int) returns (r: Result<seq<OutputFile>, SaveError>)
    ensures r.Err? <==> ParseStem(stem).None?
    ensures r.Err? ==> r.error == MalformedReplayName(stem)
    ensures r.Ok? ==> r.value == UnitFiles(rows, ParseStem(stem).value, observedId)
  {
    var order, groups := GroupByPlayer(rows);
    var parsed := ParseStem(stem);
    if parsed.None? {
      return Err(MalformedReplayName(stem));
    }
    var sp := parsed.value;
    ghost var expected := UnitFiles(rows, sp, observedId);
    var files: seq<OutputFile> := [];
    var i := 0;
    while i < |order|
      invariant 0 <= i <= |order|
      invariant files == expected[..i]
    {
      var pid := order[i];
      UnitFileStep(rows, sp, observedId, order, groups, i);
      var data := groups[pid];
      if data != [] {
        files := files + [UnitCsv(UnitPath(sp, observedId, pid), data)];
      }
      i := i + 1;
    }
    assert expected[..i] == expected;
    return Ok(files);
  }

  /** `save_data_from_bot`. The unit part runs when the unit temp file holds data and the death
      part when the death temp file does; each parses the replay stem first. */
  method SaveDataFromBot(bot: ObserverBot) returns (r: Result<seq<OutputFile>, SaveError>)
    requires bot.Valid()
    ensures var parsed := ParseStem(Stem(BaseName(bot.replayPath)));
      && (r.Err? <==> (bot.UnitRows() != [] || bot.DeathRows() != []) && parsed.None?)
      && (r.Ok? ==>
            r.value == (if bot.UnitRows() == [] then [] else UnitFiles(bot.UnitRows(), parsed.value, bot.observedId))
                     + (if bot.DeathRows() == [] then []
                        else [DeathCsv(DeathPath(parsed.value, bot.observedId), bot.DeathRows())]))
  {
    var stem := Stem(BaseName(bot.replayPath));
    var files: seq<OutputFile> := [];
    var rows := bot.UnitRows();
    if rows != [] {
      var units := SaveUnitFiles(rows, stem, bot.observedId);
      if units.Err? {
        return Err(units.error);
      }
      files := units.value;
    }
    var deaths := bot.DeathRows();
    if deaths != [] {
      var parsed := ParseStem(stem);
      if parsed.None? {
        return Err(MalformedReplayName(stem));
      }
      files := files + [DeathCsv(DeathPath(parsed.value, bot.observedId), deaths)];
    }
    return Ok(files);
  }
}
