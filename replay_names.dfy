/** Replay file names and the names of the files written for them. A replay is named
    `<game>_<player1>_<player2>_<map...>.SC2Replay`. */
module ReplayNames {
  import opened Wrappers
  import opened Strings
  import Seqs

  const ReplayExtension := ".SC2Replay"

  /** `Path(path).name` for a path written with '/' separators: the text after the last '/'. */
  function BaseName(path: string): (name: string)
    ensures EndsWith(path, name)
    ensures forall i :: 0 <= i < |name| ==> name[i] != '/'
    ensures |name| < |path| ==> path[|path| - |name| - 1] == '/'
  {
    match Seqs.LastIndex(path, (c: char) => c == '/')
    case None => path
    case Some(k) => path[k + 1..]
  }

  /** A path component that pathlib keeps: neither empty (a repeated or trailing '/') nor ".". */
  predicate IsPathPart(part: string) {
    part != "" && part != "."
  }

  /** The components pathlib keeps, in order. */
  function PathParts(path: string): seq<string> {
    Seqs.Filter(Split(path, '/'), IsPathPart)
  }

  /** `str(Path(path))` for a POSIX path: the root '/' when the path is absolute, then the kept
      components joined by '/'; "." when a relative path keeps none. */
  function Normalize(path: string): string {
    var body := Join(PathParts(path), '/');
    if |path| > 0 && path[0] == '/' then "/" + body
    else if body == "" then "."
    else body
  }

  /** The text after a final '/' is the base name when it holds no '/'. */
  lemma BaseNameAfterSlash(a: string, b: string)
    requires '/' !in b
    ensures BaseName(a + "/" + b) == b
  {
    var s := a + "/" + b;
    assert s[|a|] == '/';
    assert forall i :: |a| < i < |s| ==> s[i] == b[i - |a| - 1];
  }

  /** A kept component holds no '/'. */
  lemma PathPartNoSlash(path: string, k: nat)
    requires k < |PathParts(path)|
    ensures '/' !in PathParts(path)[k]
  {
    assert PathParts(path)[k] in Split(path, '/');
  }

  /** With several kept components, the normalised path ends in '/' and the last of them. */
  lemma NormalizeEndsWithLast(path: string)
    requires |PathParts(path)| > 1
    ensures var parts := PathParts(path);
      exists front :: Normalize(path) == front + "/" + parts[|parts| - 1]
  {
    var parts := PathParts(path);
    var last := parts[|parts| - 1];
    var init := parts[..|parts| - 1];
    assert parts == init + [last];
    JoinSnoc(init, '/', last);
    var body := Join(parts, '/');
    assert body == Join(init, '/') + "/" + last;
    if |path| > 0 && path[0] == '/' {
      assert Normalize(path) == ("/" + Join(init, '/')) + "/" + last;
    } else {
      assert Normalize(path) == body;
    }
  }

  /** With one kept component, the normalised path is that component, after the root when
      the path is absolute. */
  lemma NormalizeSingle(path: string)
    requires |PathParts(path)| == 1
    ensures |path| > 0 && path[0] == '/' ==> Normalize(path) == [] + "/" + PathParts(path)[0]
    ensures !(|path| > 0 && path[0] == '/') ==> Normalize(path) == PathParts(path)[0]
  {
    var part := PathParts(path)[0];
    assert part in PathParts(path);
    assert IsPathPart(part);
    assert Join(PathParts(path), '/') == part;
    assert [] + "/" + part == "/" + part;
  }

  /** A name without '/' is its own base name. */
  lemma BaseNameNoSlash(b: string)
    requires '/' !in b
    ensures BaseName(b) == b
  {
    assert forall i :: 0 <= i < |b| ==> b[i] != '/';
  }

  /** The name of a normalised path is its last kept component: a trailing '/' or "/." and
      repeated separators do not change which file a path names. */
  lemma NormalizeName(path: string)
    requires PathParts(path) != []
    ensures BaseName(Normalize(path)) == PathParts(path)[|PathParts(path)| - 1]
  {
    var parts := PathParts(path);
    var last := parts[|parts| - 1];
    PathPartNoSlash(path, |parts| - 1);
    if |parts| == 1 {
      NormalizeSingle(path);
      if |path| > 0 && path[0] == '/' {
        BaseNameAfterSlash([], last);
      } else {
        BaseNameNoSlash(last);
      }
    } else {
      NormalizeEndsWithLast(path);
      var front :| Normalize(path) == front + "/" + last;
      BaseNameAfterSlash(front, last);
    }
  }

  /** A last component that pathlib drops leaves the kept components as they were. */
  lemma PathPartsDropLast(path: string, t: string)
    requires '/' !in t && !IsPathPart(t)
    ensures PathParts(path + "/" + t) == PathParts(path)
  {
    SplitAround(path, '/', t);
    SplitNoSeparator(t, '/');
    Seqs.FilterConcat(Split(path, '/'), [t], IsPathPart);
    assert Seqs.Filter([t], IsPathPart) == [];
  }

  /** A trailing '/' or "/." does not change the normalised path of a non-empty path. */
  lemma NormalizeTrailing(path: string)
    requires path != ""
    ensures Normalize(path + "/") == Normalize(path)
    ensures Normalize(path + "/.") == Normalize(path)
  {
    PathPartsDropLast(path, "");
    assert path + "/" == path + "/" + "";
    assert (path + "/")[0] == path[0];
    PathPartsDropLast(path, ".");
    assert path + "/." == path + "/" + ".";
    assert (path + "/.")[0] == path[0];
  }

  /** `Path(name).stem`: the name without its last suffix, where a suffix is a '.' that is
      neither the first nor the last character. */
  function Stem(name: string): string {
    match Seqs.LastIndex(name, (c: char) => c == '.')
    case None => name
    case Some(i) => if 0 < i < |name| - 1 then name[..i] else name
  }

  /** The stem is a prefix of the name; a shorter stem stops at the name's last '.', which is
      neither its first nor its last character, and the whole name is kept only when no such
      last '.' exists. */
  lemma StemShape(name: string)
    ensures StartsWith(name, Stem(name))
    ensures Stem(name) != name ==>
              && 0 < |Stem(name)| < |name| - 1 && name[|Stem(name)|] == '.'
              && forall j :: |Stem(name)| < j < |name| ==> name[j] != '.'
    ensures Stem(name) == name ==>
              forall i :: 0 < i < |name| - 1 && name[i] == '.' ==> name[|name| - 1] == '.'
  {
  }

  /** The stem of `<n>.SC2Replay` is `<n>` whenever `<n>` is not empty. */
  lemma StemOfReplayFile(n: string)
    requires n != ""
    ensures Stem(n + ReplayExtension) == n
  {
    var name := n + ReplayExtension;
    var p := (c: char) => c == '.';
    assert p(name[|n|]);
    forall j | |n| < j < |name|
      ensures !p(name[j])
    {
      assert name[j] == ReplayExtension[j - |n|];
    }
    var k := Seqs.LastIndex(name, p);
    assert k == Some(|n|);
    assert name[..|n|] == n;
  }

  /** The four fields of a replay stem. */
  datatype StemParts = StemParts(game: string, p1: string, p2: string, mapName: string)

  /** `parts = stem.split("_")`: game, p1 and p2 are parts 0 to 2 and the map is the remaining
      parts joined with "_"; fewer than three parts raise IndexError, here `None`. */
  function ParseStem(stem: string): (r: Option<StemParts>)
    ensures r.Some? ==> '_' !in r.value.game && '_' !in r.value.p1 && '_' !in r.value.p2
  {
    var parts := Split(stem, '_');
    if |parts| < 3 then None
    else Some(StemParts(parts[0], parts[1], parts[2], Join(parts[3..], '_')))
  }

  /** Parsing fails exactly when the stem has fewer than two underscores. */
  lemma ParseStemFails(stem: string)
    ensures ParseStem(stem).None? <==> Count(stem, '_') < 2
  {
    SplitLength(stem, '_');
  }

  /** A stem built from underscore-free game and player names parses back into them, whatever
      underscores the map name holds. */
  lemma ParseStemRoundTrip(game: string, p1: string, p2: string, mapName: string)
    requires '_' !in game && '_' !in p1 && '_' !in p2
    ensures ParseStem(game + "_" + p1 + "_" + p2 + "_" + mapName) == Some(StemParts(game, p1, p2, mapName))
  {
    var stem := game + "_" + p1 + "_" + p2 + "_" + mapName;
    var tail2 := p2 + "_" + mapName;
    var tail1 := p1 + "_" + tail2;
    assert stem == game + "_" + tail1;
    SplitPrefix(p2, '_', mapName);
    SplitPrefix(p1, '_', tail2);
    SplitPrefix(game, '_', tail1);
    assert Split(tail1, '_') == [p1, p2] + Split(mapName, '_');
    var parts := Split(stem, '_');
    assert parts == [game, p1, p2] + Split(mapName, '_');
    assert parts[3..] == Split(mapName, '_');
    JoinSplit(mapName, '_');
  }

  /** A stem of exactly three fields parses with an empty map name. */
  lemma ParseStemThreeFields(game: string, p1: string, p2: string)
    requires '_' !in game && '_' !in p1 && '_' !in p2
    ensures ParseStem(game + "_" + p1 + "_" + p2) == Some(StemParts(game, p1, p2, ""))
  {
    var stem := game + "_" + p1 + "_" + p2;
    var tail1 := p1 + "_" + p2;
    assert stem == game + "_" + tail1;
    SplitNoSeparator(p2, '_');
    SplitPrefix(p1, '_', p2);
    SplitPrefix(game, '_', tail1);
    var parts := Split(stem, '_');
    assert parts == [game, p1, p2];
    assert parts[3..] == [];
  }

  /** The first field of the stem, which names the replay's output directory
      (`stem.split("_")[0]`, which always exists). */
  function GameNumber(replayPath: string): string {
    Split(Stem(BaseName(replayPath)), '_')[0]
  }

  /** The game number is the stem up to its first underscore, and holds none. */
  lemma GameNumberShape(replayPath: string)
    ensures '_' !in GameNumber(replayPath)
    ensures StartsWith(Stem(BaseName(replayPath)), GameNumber(replayPath))
    ensures |GameNumber(replayPath)| < |Stem(BaseName(replayPath))| ==>
              Stem(BaseName(replayPath))[|GameNumber(replayPath)|] == '_'
  {
    SplitHead(Stem(BaseName(replayPath)), '_');
  }

  /** `observer_name = player_1_name if observed_id == 1 else player_2_name`. */
  function ObserverName(sp: StemParts, observedId: int): string {
    if observedId == 1 then sp.p1 else sp.p2
  }

  /** The three kinds of per-player unit file. */
  datatype UnitFileKind =
    | GroundTruth(player: string)
    | ObservedBy(player: string, observer: string)
    | OtherPlayer(id: int, observer: string)

  function UnitFileKindOf(sp: StemParts, observedId: int, playerId: int): UnitFileKind {
    if playerId == 1 || playerId == 2 then
      var player := if playerId == 1 then sp.p1 else sp.p2;
      if playerId == observedId then GroundTruth(player)
      else ObservedBy(player, ObserverName(sp, observedId))
    else OtherPlayer(playerId, ObserverName(sp, observedId))
  }

  const GroundTruthTail := "ground-truth.csv"

  function ObservedByTail(observer: string): string {
    "observed-by-" + observer + ".csv"
  }

  /** The unit file name for one player's rows, as seen from `observedId`'s perspective. */
  function UnitFileName(sp: StemParts, observedId: int, playerId: int): string {
    match UnitFileKindOf(sp, observedId, playerId)
    case GroundTruth(player) => sp.game + "_" + player + "_" + sp.mapName + "_" + GroundTruthTail
    case ObservedBy(player, observer) => sp.game + "_" + player + "_" + sp.mapName + "_" + ObservedByTail(observer)
    case OtherPlayer(id, observer) =>
      sp.game + "_player-id-" + IntToString(id) + "_" + sp.mapName + "_" + ObservedByTail(observer)
  }

  /** Every unit file name starts with the game number and '_' and ends in `.csv`. */
  lemma UnitFileNameShape(sp: StemParts, observedId: int, playerId: int)
    ensures StartsWith(UnitFileName(sp, observedId, playerId), sp.game + "_")
    ensures EndsWith(UnitFileName(sp, observedId, playerId), ".csv")
  {
  }

  /** The death file name for one perspective. */
  function DeathFileName(sp: StemParts, observedId: int): string {
    sp.game + "_" + ("deaths" + "_" + (("observed-by-" + ObserverName(sp, observedId)) + "_" + (sp.mapName + ".csv")))
  }

  /** The death file's first three underscore-separated fields are the game, `deaths` and the
      observing player, so the game and the perspective can be read back from the name. */
  lemma DeathFileFields(sp: StemParts, observedId: int)
    requires '_' !in sp.game && '_' !in sp.p1 && '_' !in sp.p2
    ensures var parts := Split(DeathFileName(sp, observedId), '_');
      |parts| >= 4 && parts[..3] == [sp.game, "deaths", "observed-by-" + ObserverName(sp, observedId)]
  {
    var observer := "observed-by-" + ObserverName(sp, observedId);
    var rest := sp.mapName + ".csv";
    forall i | 0 <= i < |observer|
      ensures observer[i] != '_'
    {
      if i >= |"observed-by-"| {
        assert observer[i] == ObserverName(sp, observedId)[i - |"observed-by-"|];
      }
    }
    var name := DeathFileName(sp, observedId);
    SplitPrefix(observer, '_', rest);
    SplitPrefix("deaths", '_', observer + "_" + rest);
    SplitPrefix(sp.game, '_', "deaths" + "_" + (observer + "_" + rest));
    var parts := Split(name, '_');
    assert parts == [sp.game, "deaths", observer] + Split(rest, '_');
  }

  function OutputDir(game: string): string {
    "Output/" + game
  }

  /** The text after the last '_'. */
  function LastSegment(s: string): string {
    match Seqs.LastIndex(s, (c: char) => c == '_')
    case None => s
    case Some(k) => s[k + 1..]
  }

  lemma LastSegmentOf(a: string, b: string)
    requires '_' !in b
    ensures LastSegment(a + "_" + b) == b
  {
    var s := a + "_" + b;
    var p := (c: char) => c == '_';
    assert p(s[|a|]);
    forall j | |a| < j < |s|
      ensures !p(s[j])
    {
      assert s[j] == b[j - |a| - 1];
    }
    assert Seqs.LastIndex(s, p) == Some(|a|);
    assert s[|a| + 1..] == b;
  }

  /** A unit file is named ground-truth exactly when its player is 1 or 2 and is the observed
      player: the name's last underscore-separated field tells the kinds apart, because
      player names hold no underscore. */
  lemma GroundTruthIff(sp: StemParts, observedId: int, playerId: int)
    requires '_' !in sp.p1 && '_' !in sp.p2
    ensures LastSegment(UnitFileName(sp, observedId, playerId)) == GroundTruthTail
        <==> (playerId == 1 || playerId == 2) && playerId == observedId
  {
    var name := UnitFileName(sp, observedId, playerId);
    var observer := ObserverName(sp, observedId);
    match UnitFileKindOf(sp, observedId, playerId)
    case GroundTruth(player) =>
      assert '_' !in GroundTruthTail;
      assert name == (sp.game + "_" + player + "_" + sp.mapName) + "_" + GroundTruthTail;
      LastSegmentOf(sp.game + "_" + player + "_" + sp.mapName, GroundTruthTail);
    case ObservedBy(player, _) =>
      assert '_' !in ObservedByTail(observer) by {
        assert ObservedByTail(observer) == "observed-by-" + observer + ".csv";
      }
      assert name == (sp.game + "_" + player + "_" + sp.mapName) + "_" + ObservedByTail(observer);
      LastSegmentOf(sp.game + "_" + player + "_" + sp.mapName, ObservedByTail(observer));
      assert ObservedByTail(observer)[0] != GroundTruthTail[0];
    case OtherPlayer(id, _) =>
      assert '_' !in ObservedByTail(observer) by {
        assert ObservedByTail(observer) == "observed-by-" + observer + ".csv";
      }
      var front := sp.game + "_player-id-" + IntToString(id) + "_" + sp.mapName;
      assert name == front + "_" + ObservedByTail(observer);
      LastSegmentOf(front, ObservedByTail(observer));
      assert ObservedByTail(observer)[0] != GroundTruthTail[0];
  }

  /** The length of the leading run of decimal digits. */
  function LeadingDigitCount(s: string): (n: nat)
    ensures n <= |s|
    ensures forall i :: 0 <= i < n ==> IsDigit(s[i])
    ensures n < |s| ==> !IsDigit(s[n])
  {
    if s == [] || !IsDigit(s[0]) then 0 else 1 + LeadingDigitCount(s[1..])
  }

  /** `re.search(r"^(\d+)_", name).group(1)`, or None when there is no match. */
  function LeadingGameNumber(name: string): Option<string> {
    var n := LeadingDigitCount(name);
    if 0 < n < |name| && name[n] == '_' then Some(name[..n]) else None
  }

  /** The regular expression captures `g` exactly when `g` is a digit run that, followed by '_',
      starts the name. */
  lemma LeadingGameNumberIff(name: string, g: string)
    ensures LeadingGameNumber(name) == Some(g) <==> IsDigits(g) && StartsWith(name, g + "_")
  {
    var n := LeadingDigitCount(name);
    if IsDigits(g) && StartsWith(name, g + "_") {
      assert forall i :: 0 <= i < |g| ==> name[i] == (g + "_")[i] == g[i];
      assert name[|g|] == (g + "_")[|g|] == '_';
      assert n == |g|;
      assert name[..n] == (g + "_")[..|g|] == g;
    }
    if LeadingGameNumber(name) == Some(g) {
      assert name[..n + 1] == g + "_";
    }
  }
}
