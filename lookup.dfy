/** GET /api/playerstats/:steamId: the id is normalised once, then up to three
    differently phrased queries are tried in turn until one returns rows. The
    table is abstract: `answer(stage, key)` is what the stage's query returns
    for the key (a query that fails returns no rows, as its `catch` leaves the
    result empty). */
module SteamLookup {
  import opened Text
  import opened JsValues

  /** A PlayerStatsNew row as the handler passes it on; the remaining columns
      travel untouched and are not modelled. */
  datatype PlayerRow = PlayerRow(steamId: JsValue, name: JsValue, playtime: JsValue)

  /** The three phrasings of the lookup (server.js:853-936):
      `WHERE SteamId = ?`, `WHERE SteamId = CAST(? AS UNSIGNED)` and
      `WHERE CAST(SteamId AS CHAR) = ?`. */
  datatype Stage = ByValue | ByUnsigned | ByText

  const AllStages: seq<Stage> := [ByValue, ByUnsigned, ByText]

  /** `/^\d+$/.test(s)`. */
  predicate IsNumeral(s: string) {
    |s| > 0 && AllDigits(s)
  }

  /** The key all three stages use (server.js:821-823, server.js:847): a
      numeral goes through `BigInt` and back, which drops leading zeros;
      anything else is only trimmed. */
  function NormalizeSteamId(s: string): (r: string)
    ensures IsNumeral(s) ==> Canonical(r) && Value(r) == Value(s)
    ensures !IsNumeral(s) ==> r == Trim(s)
  {
    if IsNumeral(s) then
      ValueShow(Value(s));
      Show(Value(s))
    else Trim(s)
  }

  /** An id already written canonically is used as it is. */
  lemma CanonicalIdKept(s: string)
    requires Canonical(s)
    ensures NormalizeSteamId(s) == s
  {
    ShowValue(s);
  }

  /** Two numerals denoting the same number are looked up with the same key. */
  lemma SameNumberSameKey(s: string, t: string)
    requires IsNumeral(s) && IsNumeral(t) && Value(s) == Value(t)
    ensures NormalizeSteamId(s) == NormalizeSteamId(t)
  {
  }

  /** The handler's answer. */
  datatype Outcome =
    | NoTable
    | NotFound(steamId: string, searched: string)
    | Found(row: PlayerRow)

  /** `if (result.SteamId) result.SteamId = String(result.SteamId)` (server.js:995-998). */
  function AsAnswered(row: PlayerRow): (r: PlayerRow)
    ensures r.name == row.name && r.playtime == row.playtime
    ensures Truthy(row.steamId) ==> r.steamId == Str(ToText(row.steamId))
    ensures !Truthy(row.steamId) ==> r.steamId == row.steamId
  {
    if Truthy(row.steamId) then row.(steamId := Str(ToText(row.steamId))) else row
  }

  /** The lookup (server.js:815-1003). `ran` lists the stages whose query was
      sent, in order. */
  method LookupPlayer(steamId: string, tableExists: bool, answer: (Stage, string) -> seq<PlayerRow>)
    returns (out: Outcome, ran: seq<Stage>)
    ensures !tableExists ==> out == NoTable && ran == []
    ensures tableExists ==>
              var key := NormalizeSteamId(steamId);
              && 1 <= |ran| <= 3 && ran == AllStages[..|ran|]
              && (forall i :: 0 <= i < |ran| - 1 ==> answer(ran[i], key) == [])
              && (out.Found? ==> answer(ran[|ran| - 1], key) != []
                                  && out.row == AsAnswered(answer(ran[|ran| - 1], key)[0]))
              && (|ran| < 3 ==> out.Found?)
              && (out.NotFound? <==> forall st :: st in AllStages ==> answer(st, key) == [])
              && (out.NotFound? ==> out == NotFound(key, key))
              && (out.Found? || out.NotFound?)
  {
    if !tableExists {
      return NoTable, [];
    }
    var key := NormalizeSteamId(steamId);
    var stats := answer(ByValue, key);
    ran := [ByValue];
    if |stats| == 0 {
      stats := answer(ByUnsigned, key);
      ran := ran + [ByUnsigned];
    }
    if |stats| == 0 {
      stats := answer(ByText, key);
      ran := ran + [ByText];
    }
    if |stats| == 0 {
      return NotFound(key, key), ran;
    }
    out := Found(AsAnswered(stats[0]));
  }
}
