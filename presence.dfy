/** The `game_data` command of `navigation.rs`: the two presence lines (Discord's
    `details` and `state`) for a tagged game payload. */
module Presence {
  import opened Wrappers
  import opened Text
  import opened Json

  /** The values `game_data` reads out of the payload before it formats the lines. */
  datatype GameFields = GameFields(
    round: nat,
    maxRounds: nat,
    mode: string,
    mapName: string,
    totalScore: nat,
    gameType: string)

  /** The outcome of reading the payload: the fields, an unknown `game_type` (logged,
      no update), or a panic of a `Map` index or an `unwrap`. */
  datatype Extracted = Game(fields: GameFields) | NotAGame | Panicked

  /** What `game_data` does: set these two lines, or skip the update. */
  datatype Rendered = Lines(details: string, state: string) | UnknownType | Malformed

  // ---------------------------------------------------------------- reading the payload

  /** `json[key].as_u64().unwrap()`: a missing key panics in the index, a value that is
      not a `u64` in the `unwrap`. */
  function U64Field(json: Fields, key: string): Option<nat> {
    var v :- Get(json, key);
    AsU64(v)
  }

  /** `json[key].as_str().unwrap()`. */
  function StrField(json: Fields, key: string): Option<string> {
    var v :- Get(json, key);
    AsStr(v)
  }

  /** `json["player"]["totalScore"]["amount"].as_str().unwrap().parse().unwrap()`. */
  function TotalScore(json: Fields): Option<nat> {
    var player :- Get(json, "player");
    var amount :- AsStr(At(At(player, "totalScore"), "amount"));
    ParseU64(amount)
  }

  function ExtractOffline(json: Fields): Option<GameFields> {
    var round :- U64Field(json, "round");
    var maxRounds :- U64Field(json, "roundCount");
    var mode :- StrField(json, "mode");
    var mapName :- StrField(json, "mapName");
    var score :- TotalScore(json);
    Some(GameFields(round, maxRounds, mode, mapName, score, "offline"))
  }

  /** The map of a live game: `Battle Royale` without `options`, else `mapName` when
      that key is present, else `options.map.name`. */
  function LiveMapName(json: Fields): Option<string> {
    if Get(json, "options").None? then Some("Battle Royale")
    else if Get(json, "mapName").Some? then AsStr(Get(json, "mapName").value)
    else AsStr(At(At(Get(json, "options").value, "map"), "name"))
  }

  /** A live game has no round count and no score; `aggregatedAnswerStats` marks a quiz. */
  function ExtractLive(json: Fields): Option<GameFields> {
    var round :- U64Field(json, "currentRoundNumber");
    var mode :- StrField(json, "game_mode");
    var gameType := if Get(json, "aggregatedAnswerStats").Some? then "Quiz" else "live";
    var mapName :- LiveMapName(json);
    Some(GameFields(round, 0, mode, mapName, 0, gameType))
  }

  function Extract(json: Fields): Extracted {
    var tag := Get(json, "game_type");
    if tag.None? then Panicked
    else if AsStr(tag.value) == Some("offline") then
      var f := ExtractOffline(json);
      if f.Some? then Game(f.value) else Panicked
    else if AsStr(tag.value) == Some("live") then
      var f := ExtractLive(json);
      if f.Some? then Game(f.value) else Panicked
    else NotAGame
  }

  // ---------------------------------------------------------------- formatting

  function MaxText(maxRounds: nat): string {
    if maxRounds > 0 then " / " + NatToString(maxRounds) else ""
  }

  function ScoreText(score: nat): string {
    if score > 0 then " - " + NatToString(score) + " points" else ""
  }

  /** The `state` line outside streak mode. */
  function RoundLine(round: nat, maxRounds: nat, score: nat): string {
    "Round: " + NatToString(round) + MaxText(maxRounds) + ScoreText(score)
  }

  function FormatLines(f: GameFields): Rendered {
    if f.mode == "streak" then
      // `current_round - 1` on a `u64`: round 0 overflows
      if f.round == 0 then Malformed
      else Lines("Country Streak - " + f.mapName, "Streak: " + NatToString(f.round - 1))
    else
      var details :=
        if f.gameType == "Quiz" then f.gameType
        else if f.gameType == "live" then f.mode + " - " + f.mapName
        else f.mapName;
      Lines(details, RoundLine(f.round, f.maxRounds, f.totalScore))
  }

  /** The presence lines of a payload. */
  function Render(json: Fields): Rendered {
    match Extract(json)
    case NotAGame => UnknownType
    case Panicked => Malformed
    case Game(f) => FormatLines(f)
  }

  /** Lines 75-100 of `game_data` as the source writes them, appending to mutable strings. */
  method FormatPresence(f: GameFields) returns (r: Rendered)
    ensures r == FormatLines(f)
  {
    var line1: string;
    var line2: string;
    if f.mode == "streak" {
      if f.round == 0 {
        return Malformed;
      }
      line1 := "Country Streak - " + f.mapName;
      line2 := "Streak: " + NatToString(f.round - 1);
    } else {
      line1 := "";
      if f.gameType == "Quiz" {
        line1 := line1 + f.gameType;
      } else if f.gameType == "live" {
        line1 := line1 + (f.mode + " - " + f.mapName);
      } else {
        line1 := line1 + f.mapName;
      }
      line2 := "Round: " + NatToString(f.round);
      if f.maxRounds > 0 {
        line2 := line2 + (" / " + NatToString(f.maxRounds));
      }
      if f.totalScore > 0 {
        line2 := line2 + (" - " + NatToString(f.totalScore) + " points");
      }
    }
    return Lines(line1, line2);
  }

  // ---------------------------------------------------------------- reading a line back

  function LeadingNumber(s: string): Option<(nat, string)> {
    var (digits, rest) := TakeDigits(s);
    if |digits| == 0 then None else Some((ParseDigits(digits), rest))
  }

  function MaxPart(s: string): Option<(nat, string)> {
    if StartsWith(s, " / ") then LeadingNumber(s[3..]) else Some((0, s))
  }

  function ScorePart(s: string): Option<nat> {
    if s == "" then Some(0)
    else if StartsWith(s, " - ") then
      var found :- LeadingNumber(s[3..]);
      if found.1 == " points" then Some(found.0) else None
    else None
  }

  /** Reads round, round count and score back from a `state` line. */
  function ParseRoundLine(s: string): Option<(nat, nat, nat)> {
    if !StartsWith(s, "Round: ") then None
    else
      var round :- LeadingNumber(s[|"Round: "|..]);
      var max :- MaxPart(round.1);
      var score :- ScorePart(max.1);
      Some((round.0, max.0, score))
  }

  lemma NumberOf(n: nat, rest: string)
    requires rest == [] || !IsDigit(rest[0])
    ensures LeadingNumber(NatToString(n) + rest) == Some((n, rest))
  {
    TakeDigitsSplit(NatToString(n), rest);
    ParseNatToString(n);
  }

  lemma ScorePartOf(score: nat)
    ensures ScorePart(ScoreText(score)) == Some(score)
  {
    if score > 0 {
      NumberAfter(" - ", score, " points");
    }
  }

  lemma MaxPartOf(maxRounds: nat, score: nat)
    ensures MaxPart(MaxText(maxRounds) + ScoreText(score)) == Some((maxRounds, ScoreText(score)))
  {
    var t := ScoreText(score);
    if maxRounds > 0 {
      assert t == [] || t[0] == ' ';
      NumberAfter(" / ", maxRounds, t);
    } else {
      assert MaxText(maxRounds) + t == t;
      assert !StartsWith(t, " / ") by {
        if |t| >= 3 { assert t[1] == '-'; }
      }
    }
  }

  lemma ParseRoundLineSteps(s: string, round: nat, tail: string, maxRounds: nat, rest: string, score: nat)
    requires StartsWith(s, "Round: ") && LeadingNumber(s[|"Round: "|..]) == Some((round, tail))
    requires MaxPart(tail) == Some((maxRounds, rest)) && ScorePart(rest) == Some(score)
    ensures ParseRoundLine(s) == Some((round, maxRounds, score))
  {
  }

  /** The `state` line loses nothing: round, round count and score can be read back from
      it, and the ` / max` segment appears exactly when the count is positive and the
      points segment exactly when the score is positive. */
  lemma RoundLineRoundTrip(round: nat, maxRounds: nat, score: nat)
    ensures ParseRoundLine(RoundLine(round, maxRounds, score)) == Some((round, maxRounds, score))
    ensures '/' in RoundLine(round, maxRounds, score) <==> maxRounds > 0
    ensures 'p' in RoundLine(round, maxRounds, score) <==> score > 0
  {
    RoundLineSegments(round, maxRounds, score);
    var rest := ScoreText(score);
    var tail := MaxText(maxRounds) + rest;
    RoundLineHead(round, maxRounds, score);
    MaxPartOf(maxRounds, score);
    ScorePartOf(score);
    ParseRoundLineSteps(RoundLine(round, maxRounds, score), round, tail, maxRounds, rest, score);
  }

  /** Neither digits nor `Round: ` hold a `/` or a `p`, so each of them marks its segment. */
  lemma RoundLineSegments(round: nat, maxRounds: nat, score: nat)
    ensures '/' in RoundLine(round, maxRounds, score) <==> maxRounds > 0
    ensures 'p' in RoundLine(round, maxRounds, score) <==> score > 0
  {
    var head := "Round: ";
    assert '/' !in head && 'p' !in head;
    DigitsHaveNoMarks(round);
    DigitsHaveNoMarks(maxRounds);
    DigitsHaveNoMarks(score);
    var m, t := MaxText(maxRounds), ScoreText(score);
    if maxRounds > 0 {
      assert m[1] == '/';
    } else {
      assert m == [];
    }
    if score > 0 {
      assert (" - " + NatToString(score) + " points")[|" - " + NatToString(score)| + 1] == 'p';
      assert '/' !in " - " && '/' !in " points";
    } else {
      assert t == [];
    }
    assert 'p' !in " / ";
    assert RoundLine(round, maxRounds, score) == head + NatToString(round) + m + t;
  }

  lemma DigitsHaveNoMarks(n: nat)
    ensures '/' !in NatToString(n) && 'p' !in NatToString(n)
  {
    var s := NatToString(n);
    assert AllDigits(s);
    assert !IsDigit('/') && !IsDigit('p');
  }

  lemma RoundLineHead(round: nat, maxRounds: nat, score: nat)
    ensures var line, tail := RoundLine(round, maxRounds, score), MaxText(maxRounds) + ScoreText(score);
      StartsWith(line, "Round: ") && LeadingNumber(line[|"Round: "|..]) == Some((round, tail))
  {
    var tail := MaxText(maxRounds) + ScoreText(score);
    Assoc("Round: " + NatToString(round), MaxText(maxRounds), ScoreText(score));
    TailStartsWithSpace(maxRounds, score);
    NumberAfter("Round: ", round, tail);
  }

  lemma NumberAfter(prefix: string, n: nat, rest: string)
    requires rest == [] || !IsDigit(rest[0])
    ensures var s := prefix + NatToString(n) + rest;
      StartsWith(s, prefix) && LeadingNumber(s[|prefix|..]) == Some((n, rest))
  {
    var digits := NatToString(n);
    Assoc(prefix, digits, rest);
    DropPrefix(prefix, digits + rest);
    NumberOf(n, rest);
  }

  lemma TailStartsWithSpace(maxRounds: nat, score: nat)
    ensures var tail := MaxText(maxRounds) + ScoreText(score); tail == [] || tail[0] == ' '
  {
    if maxRounds == 0 {
      assert MaxText(maxRounds) + ScoreText(score) == ScoreText(score);
    }
  }

  // ---------------------------------------------------------------- properties of rendering

  /** No presence lines unless `game_type` is the string `offline` or `live`; a missing
      `game_type` panics, any other value is reported as unknown. */
  lemma RenderNeedsGameType(json: Fields)
    ensures Render(json).Lines? ==>
      Get(json, "game_type") == Some(String("offline")) || Get(json, "game_type") == Some(String("live"))
    ensures Get(json, "game_type").None? ==> Render(json) == Malformed
    ensures (&& Get(json, "game_type").Some?
             && AsStr(Get(json, "game_type").value) != Some("offline")
             && AsStr(Get(json, "game_type").value) != Some("live"))
            ==> Render(json) == UnknownType
  {
  }

  /** How the `game_type` tag selects the reader. */
  lemma ExtractByTag(json: Fields)
    ensures Get(json, "game_type") == Some(String("offline")) ==>
      Extract(json) == if ExtractOffline(json).Some? then Game(ExtractOffline(json).value) else Panicked
    ensures Get(json, "game_type") == Some(String("live")) ==>
      Extract(json) == if ExtractLive(json).Some? then Game(ExtractLive(json).value) else Panicked
  {
    assert "live" != "offline" by { assert "live"[0] != "offline"[0]; }
  }

  lemma OfflineFields(json: Fields, round: nat, maxRounds: nat, mode: string, mapName: string, player: Value, amount: string, score: nat)
    requires Get(json, "round") == Some(Number(round)) && round < U64Limit
    requires Get(json, "roundCount") == Some(Number(maxRounds)) && maxRounds < U64Limit
    requires Get(json, "mode") == Some(String(mode))
    requires Get(json, "mapName") == Some(String(mapName))
    requires Get(json, "player") == Some(player)
    requires At(At(player, "totalScore"), "amount") == String(amount) && ParseU64(amount) == Some(score)
    ensures ExtractOffline(json) == Some(GameFields(round, maxRounds, mode, mapName, score, "offline"))
  {
    assert U64Field(json, "round") == Some(round);
    assert U64Field(json, "roundCount") == Some(maxRounds);
    assert StrField(json, "mode") == Some(mode);
    assert StrField(json, "mapName") == Some(mapName);
    assert TotalScore(json) == Some(score);
  }

  /** An offline payload outside streak mode: the map name over the round line. */
  lemma OfflineRender(json: Fields, round: nat, maxRounds: nat, mode: string, mapName: string, player: Value, amount: string, score: nat)
    requires Get(json, "game_type") == Some(String("offline"))
    requires Get(json, "round") == Some(Number(round)) && round < U64Limit
    requires Get(json, "roundCount") == Some(Number(maxRounds)) && maxRounds < U64Limit
    requires Get(json, "mode") == Some(String(mode)) && mode != "streak"
    requires Get(json, "mapName") == Some(String(mapName))
    requires Get(json, "player") == Some(player)
    requires At(At(player, "totalScore"), "amount") == String(amount) && ParseU64(amount) == Some(score)
    ensures Render(json) == Lines(mapName, RoundLine(round, maxRounds, score))
  {
    var f := GameFields(round, maxRounds, mode, mapName, score, "offline");
    OfflineFields(json, round, maxRounds, mode, mapName, player, amount, score);
    ExtractByTag(json);
    RenderGame(json, f);
    OfflineFormat(f);
  }

  /** An offline streak payload: the streak so far is one less than the round, and
      round 0 is malformed. */
  lemma OfflineStreakRender(json: Fields, round: nat, maxRounds: nat, mapName: string, player: Value, amount: string, score: nat)
    requires Get(json, "game_type") == Some(String("offline"))
    requires Get(json, "round") == Some(Number(round)) && round < U64Limit
    requires Get(json, "roundCount") == Some(Number(maxRounds)) && maxRounds < U64Limit
    requires Get(json, "mode") == Some(String("streak"))
    requires Get(json, "mapName") == Some(String(mapName))
    requires Get(json, "player") == Some(player)
    requires At(At(player, "totalScore"), "amount") == String(amount) && ParseU64(amount) == Some(score)
    ensures round >= 1 ==>
      Render(json) == Lines("Country Streak - " + mapName, "Streak: " + NatToString(round - 1))
    ensures round == 0 ==> Render(json) == Malformed
  {
    var f := GameFields(round, maxRounds, "streak", mapName, score, "offline");
    OfflineFields(json, round, maxRounds, "streak", mapName, player, amount, score);
    ExtractByTag(json);
    RenderGame(json, f);
    StreakFormat(f);
  }

  lemma RenderGame(json: Fields, f: GameFields)
    requires Extract(json) == Game(f)
    ensures Render(json) == FormatLines(f)
  {
  }

  lemma OfflineFormat(f: GameFields)
    requires f.gameType == "offline"
    ensures f.mode != "streak" ==> FormatLines(f) == Lines(f.mapName, RoundLine(f.round, f.maxRounds, f.totalScore))
  {
    assert "offline" != "Quiz" && "offline" != "live";
  }

  /** The map name a live payload is shown with. */
  predicate LiveMapIs(json: Fields, mapName: string) {
    if Get(json, "options").None? then mapName == "Battle Royale"
    else if Get(json, "mapName").Some? then Get(json, "mapName").value == String(mapName)
    else At(At(Get(json, "options").value, "map"), "name") == String(mapName)
  }

  lemma LiveFields(json: Fields, round: nat, mode: string, mapName: string)
    requires Get(json, "currentRoundNumber") == Some(Number(round)) && round < U64Limit
    requires Get(json, "game_mode") == Some(String(mode))
    requires LiveMapIs(json, mapName)
    ensures ExtractLive(json) == Some(GameFields(round, 0, mode, mapName, 0,
      if HasKey(json, "aggregatedAnswerStats") then "Quiz" else "live"))
  {
    GetSpec(json, "aggregatedAnswerStats");
    assert U64Field(json, "currentRoundNumber") == Some(round);
    assert StrField(json, "game_mode") == Some(mode);
    assert LiveMapName(json) == Some(mapName);
  }

  /** A live payload outside streak mode: `Quiz` when `aggregatedAnswerStats` is present,
      otherwise the mode and map; the round line has no count and no score. */
  lemma LiveRender(json: Fields, round: nat, mode: string, mapName: string)
    requires Get(json, "game_type") == Some(String("live"))
    requires Get(json, "currentRoundNumber") == Some(Number(round)) && round < U64Limit
    requires Get(json, "game_mode") == Some(String(mode)) && mode != "streak"
    requires LiveMapIs(json, mapName)
    ensures Render(json) == Lines(
      if HasKey(json, "aggregatedAnswerStats") then "Quiz" else mode + " - " + mapName,
      "Round: " + NatToString(round))
  {
    var f := GameFields(round, 0, mode, mapName, 0, if HasKey(json, "aggregatedAnswerStats") then "Quiz" else "live");
    LiveFields(json, round, mode, mapName);
    ExtractByTag(json);
    RenderGame(json, f);
    LiveFormat(f);
  }

  /** A live payload in streak mode is shown like an offline streak. */
  lemma LiveStreakRender(json: Fields, round: nat, mapName: string)
    requires Get(json, "game_type") == Some(String("live"))
    requires Get(json, "currentRoundNumber") == Some(Number(round)) && round < U64Limit && round >= 1
    requires Get(json, "game_mode") == Some(String("streak"))
    requires LiveMapIs(json, mapName)
    ensures Render(json) == Lines("Country Streak - " + mapName, "Streak: " + NatToString(round - 1))
  {
    var f := GameFields(round, 0, "streak", mapName, 0, if HasKey(json, "aggregatedAnswerStats") then "Quiz" else "live");
    LiveFields(json, round, "streak", mapName);
    ExtractByTag(json);
    RenderGame(json, f);
    StreakFormat(f);
  }

  lemma StreakFormat(f: GameFields)
    requires f.mode == "streak"
    ensures f.round >= 1 ==>
      FormatLines(f) == Lines("Country Streak - " + f.mapName, "Streak: " + NatToString(f.round - 1))
    ensures f.round == 0 ==> FormatLines(f) == Malformed
  {
  }

  lemma LiveFormat(f: GameFields)
    requires f.gameType == "Quiz" || f.gameType == "live"
    requires f.maxRounds == 0 && f.totalScore == 0
    ensures f.mode != "streak" ==> FormatLines(f) == Lines(
      if f.gameType == "Quiz" then "Quiz" else f.mode + " - " + f.mapName,
      "Round: " + NatToString(f.round))
  {
    assert "Quiz" != "live";
    assert RoundLine(f.round, 0, 0) == "Round: " + NatToString(f.round) + "" + "";
  }

  /** A payload whose required round field is missing is malformed, never half-rendered. */
  lemma MissingRoundIsMalformed(json: Fields)
    requires || (Get(json, "game_type") == Some(String("offline")) && !HasKey(json, "round"))
             || (Get(json, "game_type") == Some(String("live")) && !HasKey(json, "currentRoundNumber"))
    ensures Render(json) == Malformed
  {
    GetSpec(json, "round");
    GetSpec(json, "currentRoundNumber");
  }

  /** Lines are shown only when every field `game_data` unwraps was present and of the
      right type: nothing is shown from a partly readable payload. */
  lemma LinesNeedEveryField(json: Fields)
    ensures Get(json, "game_type") == Some(String("offline")) && Render(json).Lines? ==>
      && U64Field(json, "round").Some? && U64Field(json, "roundCount").Some?
      && StrField(json, "mode").Some? && StrField(json, "mapName").Some?
      && TotalScore(json).Some?
    ensures Get(json, "game_type") == Some(String("live")) && Render(json).Lines? ==>
      && U64Field(json, "currentRoundNumber").Some? && StrField(json, "game_mode").Some?
      && LiveMapName(json).Some?
  {
  }

  /** Looks up every key of a payload whose keys are pairwise distinct. */
  lemma GetDistinct(json: Fields)
    requires forall i, j :: 0 <= i < j < |json| ==> json[i].0 != json[j].0
    ensures forall i :: 0 <= i < |json| ==> Get(json, json[i].0) == Some(json[i].1)
  {
    forall i | 0 <= i < |json| ensures Get(json, json[i].0) == Some(json[i].1) {
      GetAt(json, i, json[i].0);
    }
  }

  /** An offline game in round 3 of 5 on `World` with 4200 points. */
  lemma OfflineExample()
    ensures Render([
      ("game_type", String("offline")), ("round", Number(3)), ("roundCount", Number(5)),
      ("mode", String("standard")), ("mapName", String("World")),
      ("player", Object([("totalScore", Object([("amount", String("4200"))]))]))])
      == Lines("World", "Round: 3 / 5 - 4200 points")
  {
    var json: Fields := [
      ("game_type", String("offline")), ("round", Number(3)), ("roundCount", Number(5)),
      ("mode", String("standard")), ("mapName", String("World")),
      ("player", Object([("totalScore", Object([("amount", String("4200"))]))]))];
    ExampleFields(json, 3, 5, "standard", "World", "4200");
    ParseU64OfNatToString(4200);
    ScoreDigits();
    OfflineRender(json, 3, 5, "standard", "World", json[5].1, "4200", 4200);
    RoundLineExample();
  }

  /** The lookups `game_data` makes in an offline payload with distinct keys. */
  lemma ExampleFields(json: Fields, round: nat, maxRounds: nat, mode: string, mapName: string, amount: string)
    requires json == [
      ("game_type", String("offline")), ("round", Number(round)), ("roundCount", Number(maxRounds)),
      ("mode", String(mode)), ("mapName", String(mapName)),
      ("player", Object([("totalScore", Object([("amount", String(amount))]))]))]
    ensures Get(json, "game_type") == Some(String("offline"))
    ensures Get(json, "round") == Some(Number(round)) && Get(json, "roundCount") == Some(Number(maxRounds))
    ensures Get(json, "mode") == Some(String(mode)) && Get(json, "mapName") == Some(String(mapName))
    ensures Get(json, "player") == Some(json[5].1)
    ensures At(At(json[5].1, "totalScore"), "amount") == String(amount)
  {
    GetDistinct(json);
    assert Get(json, "game_type") == Some(json[0].1);
    assert Get(json, "round") == Some(json[1].1);
    assert Get(json, "roundCount") == Some(json[2].1);
    assert Get(json, "mode") == Some(json[3].1);
    assert Get(json, "mapName") == Some(json[4].1);
    assert Get(json, "player") == Some(json[5].1);
  }

  lemma RoundLineExample()
    ensures RoundLine(3, 5, 4200) == "Round: 3 / 5 - 4200 points"
  {
    ScoreDigits();
  }

  lemma ScoreDigits()
    ensures NatToString(3) == "3" && NatToString(5) == "5" && NatToString(4200) == "4200"
  {
  }

  /** A country streak on `Europe` in round 4: three countries so far. */
  lemma StreakExample()
    ensures Render([
      ("game_type", String("offline")), ("round", Number(4)), ("roundCount", Number(0)),
      ("mode", String("streak")), ("mapName", String("Europe")),
      ("player", Object([("totalScore", Object([("amount", String("0"))]))]))])
      == Lines("Country Streak - Europe", "Streak: 3")
  {
    var json: Fields := [
      ("game_type", String("offline")), ("round", Number(4)), ("roundCount", Number(0)),
      ("mode", String("streak")), ("mapName", String("Europe")),
      ("player", Object([("totalScore", Object([("amount", String("0"))]))]))];
    ExampleFields(json, 4, 0, "streak", "Europe", "0");
    StreakDigits();
    ParseU64OfNatToString(0);
    OfflineStreakRender(json, 4, 0, "Europe", json[5].1, "0", 0);
  }

  lemma StreakDigits()
    ensures NatToString(0) == "0" && "Streak: " + NatToString(4 - 1) == "Streak: 3"
    ensures "Country Streak - " + "Europe" == "Country Streak - Europe"
  {
    assert NatToString(3) == "3";
  }
}
