/** What the HTTP handlers decide from a request before and around their
    queries: the player-stats listing's sanitised paging, sorting and search
    parameters, the create-faction validation and its two writes, and the
    quest-completion record. Query results the handlers consult arrive as
    parameters. */
module Requests {
  import opened Text
  import opened JsValues
  import opened Schema

  // ---------------------------------------------------------------------------
  // Paging

  /** `parseInt(req.query.limit) || 100` (server.js:711, server.js:526). */
  function PageLimit(v: JsValue): (r: int)
    ensures r != 0
    ensures ParseInt(v).None? || ParseInt(v) == Some(0) ==> r == 100
    ensures ParseInt(v).Some? && ParseInt(v).value != 0 ==> r == ParseInt(v).value
  {
    ParseIntOr(v, 100)
  }

  /** `parseInt(req.query.offset) || 0` (server.js:712, server.js:527). */
  function PageOffset(v: JsValue): (r: int)
    ensures ParseInt(v).None? ==> r == 0
    ensures ParseInt(v).Some? ==> r == ParseInt(v).value
  {
    ParseIntOr(v, 0)
  }

  /** A limit written as a positive decimal numeral is taken as is; "0" and
      a missing limit fall back to 100. */
  lemma PageLimitReads(n: nat)
    ensures PageLimit(Str(Show(n))) == if n == 0 then 100 else n
    ensures PageLimit(Undefined) == 100
  {
    ParseIntShow(n);
  }

  /** An offset written as a decimal numeral is taken as is. */
  lemma PageOffsetReads(n: nat)
    ensures PageOffset(Str(Show(n))) == n
    ensures PageOffset(Undefined) == 0
  {
    ParseIntShow(n);
  }

  // ---------------------------------------------------------------------------
  // Sorting

  /** The columns the player-stats listing may be ordered by (server.js:736-740). */
  const ValidSortColumns: seq<string> := [
    "SteamId", "Name", "Kills", "Headshots", "PVPDeaths", "PVEDeaths",
    "Zombies", "MegaZombies", "Animals", "Resources", "Harvests",
    "Fish", "Structures", "Barricades", "Playtime", "LastUpdated"
  ]

  /** `sortBy || 'Kills'`, then kept only when it is on the allow-list
      (server.js:713, server.js:741). */
  function SafeSortBy(sortBy: JsValue): (r: string)
    ensures r in ValidSortColumns
    ensures sortBy.Str? && sortBy.s in ValidSortColumns ==> r == sortBy.s
    ensures r == "Kills" || sortBy == Str(r)
  {
    var requested := Or(sortBy, Str("Kills"));
    if requested.Str? && requested.s in ValidSortColumns then requested.s else "Kills"
  }

  /** Anything off the allow-list, a missing value included, sorts by kills. */
  lemma UnknownSortIsKills(sortBy: JsValue)
    requires !(sortBy.Str? && sortBy.s in ValidSortColumns)
    ensures SafeSortBy(sortBy) == "Kills"
  {
  }

  datatype SortOrder = Asc | Desc

  /** `req.query.sortOrder === 'asc' ? 'ASC' : 'DESC'` (server.js:714). */
  function SortOrderOf(v: JsValue): (r: SortOrder)
    ensures r == Asc <==> v == Str("asc")
  {
    if v == Str("asc") then Asc else Desc
  }

  // ---------------------------------------------------------------------------
  // The player-stats query

  /** The query string of GET /api/playerstats. */
  datatype StatsQuery = StatsQuery(limit: JsValue, offset: JsValue, sortBy: JsValue,
                                   sortOrder: JsValue, search: JsValue)

  /** What the handler sends: whether both statements carry the
      `WHERE Name LIKE ? OR SteamId LIKE ?` filter, the ORDER BY, the
      parameters of the page query (filter, then `LIMIT ? OFFSET ?`) and the
      parameters of the count query. */
  datatype StatsPlan = StatsPlan(filtered: bool, sortBy: string, order: SortOrder,
                                 limit: int, offset: int,
                                 params: seq<JsValue>, countParams: seq<JsValue>)

  /** `%${search}%`: matches any text containing the search string. */
  function SearchPattern(search: JsValue): (p: string)
    ensures |p| >= 2 && p[0] == '%' && p[|p| - 1] == '%' && p[1..|p| - 1] == ToText(search)
  {
    "%" + ToText(search) + "%"
  }

  /** The `?` placeholders of the filter: two when it is present. */
  function FilterPlaceholders(filtered: bool): nat {
    if filtered then 2 else 0
  }

  /** The note sent when the statistics table is missing. */
  const NoStatsTableMessage := "PlayerStatsNew table does not exist."

  /** What the handler does once the query string is read: answer at once
      with an empty page when `PlayerStatsNew` is missing, or run the planned
      statements. */
  datatype StatsOutcome =
    | NoStatsTable(data: seq<JsValue>, total: int, message: string)
    | Planned(plan: StatsPlan)

  /** GET /api/playerstats from its query string and whether the
      `PlayerStatsNew` table exists (the INFORMATION_SCHEMA lookup) to its
      answer or its two statements (server.js:711-733, server.js:736-797). */
  method PlanPlayerStats(q: StatsQuery, tableExists: bool) returns (r: StatsOutcome)
    ensures r.NoStatsTable? <==> !tableExists
    ensures r.NoStatsTable? ==> r.data == [] && r.total == 0 && r.message == NoStatsTableMessage
    ensures r.Planned? ==> r.plan.sortBy in ValidSortColumns && r.plan.sortBy == SafeSortBy(q.sortBy)
    ensures r.Planned? ==> r.plan.order == SortOrderOf(q.sortOrder)
    ensures r.Planned? ==> (r.plan.filtered <==> Truthy(q.search))
    ensures r.Planned? ==> r.plan.limit == PageLimit(q.limit) && r.plan.offset == PageOffset(q.offset)
    ensures r.Planned? ==> |r.plan.params| == FilterPlaceholders(r.plan.filtered) + 2
    ensures r.Planned? ==> r.plan.params[|r.plan.params| - 2..] == [Num(r.plan.limit), Num(r.plan.offset)]
    ensures r.Planned? ==> r.plan.countParams == r.plan.params[..|r.plan.params| - 2]
    ensures r.Planned? ==> |r.plan.countParams| == FilterPlaceholders(r.plan.filtered)
    ensures r.Planned? ==> forall p :: p in r.plan.countParams ==> p == Str(SearchPattern(q.search))
  {
    var limit := PageLimit(q.limit);
    var offset := PageOffset(q.offset);
    var sortBy := Or(q.sortBy, Str("Kills"));
    var order := SortOrderOf(q.sortOrder);
    var search := Or(q.search, Str(""));
    if !tableExists {
      return NoStatsTable([], 0, NoStatsTableMessage);
    }
    var safeSortBy := if sortBy.Str? && sortBy.s in ValidSortColumns then sortBy.s else "Kills";
    var queryParams: seq<JsValue> := [];
    if Truthy(search) {
      var pattern := Str(SearchPattern(search));
      queryParams := queryParams + [pattern, pattern];
    }
    queryParams := queryParams + [Num(limit), Num(offset)];
    var countParams: seq<JsValue> := [];
    if Truthy(search) {
      var pattern := Str(SearchPattern(search));
      countParams := countParams + [pattern, pattern];
    }
    r := Planned(StatsPlan(Truthy(search), safeSortBy, order, limit, offset, queryParams, countParams));
  }

  // ---------------------------------------------------------------------------
  // Creating a faction

  /** The handler's answer: success, or an HTTP error status with its message. */
  datatype Response = Success | Failure(status: nat, error: string)

  /** A row the handler writes: the faction itself, then its owner's membership
      (flagged as leader when `player_factions` has an `IsLeader` column). */
  datatype Write =
    | InsertFaction(cols: seq<Column>, values: seq<ValueExpr>, params: seq<JsValue>)
    | AddMember(playerId: JsValue, factionId: JsValue, leader: bool)

  /** `Id`, `Name` and `OwnerId` are all truthy (server.js:338). */
  predicate HasRequired(body: CreateBody) {
    Truthy(body.id) && Truthy(body.name) && Truthy(body.ownerId)
  }

  /** POST /api/factions (server.js:326-423). `idTaken` is whether
      `SELECT Id FROM factions WHERE Id = ?` finds a row, `present` the
      columns of `factions`, `hasIsLeader` whether `player_factions` has
      `IsLeader`. `looked` says whether the duplicate lookup ran. */
  method CreateFaction(body: CreateBody, idTaken: bool, present: set<Column>, hasIsLeader: bool)
    returns (resp: Response, looked: bool, writes: seq<Write>)
    ensures !HasRequired(body) ==>
              resp == Failure(400, "Id, Name, and OwnerId are required") && !looked && writes == []
    ensures HasRequired(body) ==> looked
    ensures HasRequired(body) && idTaken ==>
              resp == Failure(400, "Faction ID already exists") && writes == []
    ensures HasRequired(body) && !idTaken ==>
              && resp == Success && |writes| == 2
              && writes[0] == InsertFaction(Columns(ListingOrder, present),
                                            InsertExprs(Columns(ListingOrder, present)),
                                            InsertParams(body, Columns(ListingOrder, present)))
              && writes[1] == AddMember(body.ownerId, body.id, hasIsLeader)
  {
    if !(Truthy(body.id) && Truthy(body.name) && Truthy(body.ownerId)) {
      return Failure(400, "Id, Name, and OwnerId are required"), false, [];
    }
    looked := true;
    if idTaken {
      return Failure(400, "Faction ID already exists"), looked, [];
    }
    var cols, values, params := BuildInsert(present, body);
    writes := [InsertFaction(cols, values, params)];
    writes := writes + [AddMember(body.ownerId, body.id, hasIsLeader)];
    resp := Success;
  }

  /** A created faction's row binds its id, name, tag and owner to the first
      four `?`s, so the required fields it was validated on are the ones
      stored; its counters start at zero points and tier one. */
  lemma CreatedFactionRow(body: CreateBody, present: set<Column>)
    requires HasRequired(body)
    ensures var params := InsertParams(body, Columns(ListingOrder, present));
            && |params| >= 4
            && params[..4] == [body.id, body.name, Or(WithDefault(body.tag, Str("")), Str("")), body.ownerId]
            && Truthy(params[0]) && Truthy(params[1]) && Truthy(params[3])
  {
    var cols := Columns(ListingOrder, present);
    ColumnsShape(ListingOrder, present);
    InsertStartParams(body);
    InsertParamsPrefix(body, cols, 6);
  }

  /** The parameters bound within a prefix of the columns are a prefix of
      those bound within all of them. */
  lemma {:induction false} InsertParamsPrefix(body: CreateBody, cols: seq<Column>, k: nat)
    requires k <= |cols|
    ensures InsertParams(body, cols[..k]) <= InsertParams(body, cols)
    decreases |cols| - k
  {
    if k < |cols| {
      InsertParamsPrefix(body, cols, k + 1);
      assert cols[..k + 1][..k] == cols[..k];
    } else {
      assert cols[..k] == cols;
    }
  }

  // ---------------------------------------------------------------------------
  // Recording a quest completion

  /** The body of POST /api/factions/:id/quests. */
  datatype QuestBody = QuestBody(questId: JsValue, questName: JsValue, questTier: JsValue,
                                 completedBy: JsValue, pointsEarned: JsValue)

  /** The completion row inserted; the handler echoes the same fields back. */
  datatype QuestRecord = QuestRecord(factionId: string, questId: JsValue, questName: JsValue,
                                     questTier: JsValue, completedBy: JsValue, pointsEarned: JsValue)

  const NoQuestTable := "faction_quest_completions table does not exist. Please create the table first."

  datatype QuestOutcome = QuestRejected(status: nat, error: string) | QuestRecorded(row: QuestRecord)

  /** POST /api/factions/:id/quests (server.js:1151-1186): `QuestId` is
      required; the table must exist; the tier defaults to 1, the completer to
      `null`, the points to 0, and a missing or empty name to the quest's id. */
  function RecordQuest(factionId: string, body: QuestBody, tableExists: bool): (r: QuestOutcome)
    ensures r.QuestRejected? <==> !Truthy(body.questId) || !tableExists
    ensures !Truthy(body.questId) ==> r == QuestRejected(400, "QuestId is required")
    ensures Truthy(body.questId) && !tableExists ==> r.QuestRejected? && r.status == 404
    ensures r.QuestRecorded? ==>
              && r.row.factionId == factionId && r.row.questId == body.questId
              && Truthy(r.row.questName)
              && (Truthy(body.questName) ==> r.row.questName == body.questName)
              && (!Truthy(body.questName) ==> r.row.questName == body.questId)
              && (body.questTier.Undefined? ==> r.row.questTier == Num(1))
              && (!body.questTier.Undefined? ==> r.row.questTier == body.questTier)
              && (body.completedBy.Undefined? ==> r.row.completedBy == Null)
              && (!body.completedBy.Undefined? ==> r.row.completedBy == body.completedBy)
              && (body.pointsEarned.Undefined? ==> r.row.pointsEarned == Num(0))
              && (!body.pointsEarned.Undefined? ==> r.row.pointsEarned == body.pointsEarned)
  {
    var questTier := WithDefault(body.questTier, Num(1));
    var completedBy := WithDefault(body.completedBy, Null);
    var pointsEarned := WithDefault(body.pointsEarned, Num(0));
    if !Truthy(body.questId) then
      QuestRejected(400, "QuestId is required")
    else if !tableExists then
      QuestRejected(404, NoQuestTable)
    else
      QuestRecorded(QuestRecord(factionId, body.questId, Or(body.questName, body.questId),
                                questTier, completedBy, pointsEarned))
  }
}
