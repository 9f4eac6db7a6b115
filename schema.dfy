/** Schema-adaptive query construction for the `factions` table (server.js).
    The handlers ask the catalog which columns exist and build their column
    lists by appending under conditions. Here a column list is a sequence of
    columns (the comma-joined SQL text is a rendering of it), and the catalog's
    answer is the set of known columns present. */
module Schema {
  import opened JsValues

  /** The columns of `factions` the code knows by name. Other column names in
      the catalog never influence the builders. */
  datatype Column =
    | Id | Name | Tag | OwnerId | TotalPoints | Tier
    | CreatedAt | UpdatedAt | ChatColor | Color | Prefix | Suffix

  /** Columns the faction statements use without asking the catalog. */
  const Mandatory: seq<Column> := [Id, Name, Tag, OwnerId, TotalPoints, Tier]

  predicate IsOptional(c: Column) {
    c.CreatedAt? || c.UpdatedAt? || c.ChatColor? || c.Color? || c.Prefix? || c.Suffix?
  }

  // ---------------------------------------------------------------------------
  // Which columns a statement names

  /** The catalog check, column by column: a mandatory column is always named,
      an optional one when the table has it, except that the legacy `Color` is
      named only when `ChatColor` is missing (the `else if (hasColor)`). */
  predicate Picked(c: Column, present: set<Column>) {
    if c == Color then ChatColor !in present && Color in present
    else !IsOptional(c) || c in present
  }

  /** The three column orders the handlers write their statements in: the
      list and leaderboard SELECTs and the INSERT (server.js:87-112,
      server.js:542-567, server.js:365-399), the single-faction SELECT
      (server.js:171-177), and the SET list of the UPDATE (server.js:459-476). */
  datatype Ordering = ListingOrder | DetailsOrder | UpdateOrder

  /** How many columns a statement in that order may name. */
  function Count(o: Ordering): nat {
    if o == UpdateOrder then 7 else 12
  }

  /** The `i`-th column a builder considers, in the order it appends them. */
  function Cand(o: Ordering, i: nat): Column
    requires i < Count(o)
  {
    match o
    case ListingOrder => (
      match i
      case 0 => Id case 1 => Name case 2 => Tag case 3 => OwnerId case 4 => TotalPoints case 5 => Tier
      case 6 => CreatedAt case 7 => UpdatedAt case 8 => ChatColor case 9 => Color case 10 => Prefix
      case _ => Suffix)
    case DetailsOrder => (
      match i
      case 0 => Id case 1 => Name case 2 => Tag case 3 => OwnerId case 4 => TotalPoints case 5 => Tier
      case 6 => ChatColor case 7 => Color case 8 => Prefix case 9 => Suffix case 10 => CreatedAt
      case _ => UpdatedAt)
    case UpdateOrder => (
      match i
      case 0 => Name case 1 => Tag case 2 => UpdatedAt case 3 => Prefix case 4 => Suffix case 5 => ChatColor
      case _ => Color)
  }

  /** Position of a column in an order; the columns an order never names come
      after `Count(o)`. */
  function Rank(o: Ordering, c: Column): nat {
    match o
    case ListingOrder => (
      match c
      case Id => 0 case Name => 1 case Tag => 2 case OwnerId => 3
      case TotalPoints => 4 case Tier => 5 case CreatedAt => 6 case UpdatedAt => 7
      case ChatColor => 8 case Color => 9 case Prefix => 10 case Suffix => 11)
    case DetailsOrder => (
      match c
      case Id => 0 case Name => 1 case Tag => 2 case OwnerId => 3
      case TotalPoints => 4 case Tier => 5 case ChatColor => 6 case Color => 7
      case Prefix => 8 case Suffix => 9 case CreatedAt => 10 case UpdatedAt => 11)
    case UpdateOrder => (
      match c
      case Name => 0 case Tag => 1 case UpdatedAt => 2 case Prefix => 3
      case Suffix => 4 case ChatColor => 5 case Color => 6
      case Id => 7 case OwnerId => 8 case TotalPoints => 9 case Tier => 10 case CreatedAt => 11)
  }

  predicate IsCandidate(o: Ordering, c: Column) {
    Rank(o, c) < Count(o)
  }

  /** The fixed head each statement starts with. */
  function Head(o: Ordering): seq<Column> {
    if o == UpdateOrder then [Name, Tag] else Mandatory
  }

  /** Each candidate sits at its own rank. */
  lemma CandRank(o: Ordering, i: nat)
    requires i < Count(o)
    ensures Rank(o, Cand(o, i)) == i
  {
  }

  /** A candidate is found at its rank. */
  lemma CandAtRank(o: Ordering, c: Column)
    requires IsCandidate(o, c)
    ensures Cand(o, Rank(o, c)) == c
  {
  }

  /** Past the head, every candidate is optional. */
  lemma CandOptional(o: Ordering, i: nat)
    requires |Head(o)| <= i < Count(o)
    ensures IsOptional(Cand(o, i))
  {
  }

  /** The columns picked among the first `k` candidates, in candidate order. */
  function ChosenUpTo(o: Ordering, k: nat, present: set<Column>): seq<Column>
    requires k <= Count(o)
  {
    if k == 0 then []
    else
      var c := Cand(o, k - 1);
      ChosenUpTo(o, k - 1, present) + (if Picked(c, present) then [c] else [])
  }

  /** The columns a statement in order `o` names, given the catalog's answer. */
  function Columns(o: Ordering, present: set<Column>): seq<Column> {
    ChosenUpTo(o, Count(o), present)
  }

  /** One more candidate: the list grows by that column exactly when it is picked. */
  lemma ChosenStep(o: Ordering, k: nat, c: Column, present: set<Column>)
    requires k < Count(o) && Rank(o, c) == k
    ensures Picked(c, present) ==> ChosenUpTo(o, k + 1, present) == ChosenUpTo(o, k, present) + [c]
    ensures !Picked(c, present) ==> ChosenUpTo(o, k + 1, present) == ChosenUpTo(o, k, present)
  {
    CandAtRank(o, c);
    assert ChosenUpTo(o, k, present) + [] == ChosenUpTo(o, k, present);
  }

  /** Ranks increase strictly along the list: the order is kept and no column
      is named twice. */
  ghost predicate InOrder(cols: seq<Column>, o: Ordering) {
    forall i, j :: 0 <= i < j < |cols| ==> Rank(o, cols[i]) < Rank(o, cols[j])
  }

  /** Every optional column the list names exists in the table. */
  ghost predicate SchemaSafe(cols: seq<Column>, present: set<Column>) {
    forall c :: c in cols && IsOptional(c) ==> c in present
  }

  /** The colour rule: `ChatColor` when it exists, otherwise the legacy `Color`
      when that exists, and never both. */
  ghost predicate ColorChoice(cols: seq<Column>, present: set<Column>) {
    && (ChatColor in present ==> ChatColor in cols && Color !in cols)
    && (ChatColor !in present && Color in present ==> Color in cols)
    && (ChatColor !in present ==> ChatColor !in cols)
    && (Color !in present ==> Color !in cols)
  }

  /** A column is chosen among the first `k` candidates exactly when it ranks
      below `k` and is picked. */
  lemma {:induction false} ChosenMembers(o: Ordering, k: nat, present: set<Column>)
    requires k <= Count(o)
    ensures forall c :: c in ChosenUpTo(o, k, present) <==> Rank(o, c) < k && Picked(c, present)
    decreases k
  {
    if k > 0 {
      ChosenMembers(o, k - 1, present);
      CandRank(o, k - 1);
      forall c | Rank(o, c) == k - 1 ensures Cand(o, k - 1) == c {
        CandAtRank(o, c);
      }
    }
  }

  /** Choosing keeps the candidates' order. */
  lemma {:induction false} ChosenInOrder(o: Ordering, k: nat, present: set<Column>)
    requires k <= Count(o)
    ensures InOrder(ChosenUpTo(o, k, present), o)
    ensures forall i :: 0 <= i < |ChosenUpTo(o, k, present)| ==> Rank(o, ChosenUpTo(o, k, present)[i]) < k
    decreases k
  {
    if k > 0 {
      ChosenInOrder(o, k - 1, present);
      CandRank(o, k - 1);
    }
  }

  /** Choosing among fewer candidates yields a prefix. */
  lemma {:induction false} ChosenPrefix(o: Ordering, j: nat, k: nat, present: set<Column>)
    requires j <= k <= Count(o)
    ensures |ChosenUpTo(o, j, present)| <= |ChosenUpTo(o, k, present)|
    ensures ChosenUpTo(o, k, present)[..|ChosenUpTo(o, j, present)|] == ChosenUpTo(o, j, present)
    decreases k - j
  {
    if j < k {
      ChosenPrefix(o, j, k - 1, present);
      var a, b := ChosenUpTo(o, j, present), ChosenUpTo(o, k - 1, present);
      assert ChosenUpTo(o, k, present)[..|b|] == b;
      assert b[..|a|] == a;
    }
  }

  /** Candidates that are not picked leave the list as it is. */
  lemma {:induction false} ChosenSkip(o: Ordering, j: nat, k: nat, present: set<Column>)
    requires j <= k <= Count(o)
    requires forall i :: j <= i < k ==> !Picked(Cand(o, i), present)
    ensures ChosenUpTo(o, k, present) == ChosenUpTo(o, j, present)
    decreases k - j
  {
    if j < k {
      ChosenSkip(o, j, k - 1, present);
    }
  }

  /** The head is always chosen in full. */
  lemma HeadChosen(o: Ordering, present: set<Column>)
    ensures ChosenUpTo(o, |Head(o)|, present) == Head(o)
  {
    if o == UpdateOrder {
      ChosenStep(o, 0, Name, present);
      assert ChosenUpTo(o, 1, present) == [Name];
      ChosenStep(o, 1, Tag, present);
    } else {
      MandatoryChosen(o, present);
    }
  }

  lemma MandatoryChosen(o: Ordering, present: set<Column>)
    requires o != UpdateOrder
    ensures ChosenUpTo(o, 6, present) == Mandatory
  {
    ChosenAllPicked(o, 6, present);
  }

  /** When every candidate below `k` is picked, all of them are chosen, in order. */
  lemma {:induction false} ChosenAllPicked(o: Ordering, k: nat, present: set<Column>)
    requires k <= Count(o)
    requires forall i :: 0 <= i < k ==> Picked(Cand(o, i), present)
    ensures |ChosenUpTo(o, k, present)| == k
    ensures forall i :: 0 <= i < k ==> ChosenUpTo(o, k, present)[i] == Cand(o, i)
    decreases k
  {
    if k > 0 {
      ChosenAllPicked(o, k - 1, present);
    }
  }

  /** What every column list the builders produce guarantees: the fixed head
      first; the candidates' order; a column named exactly when it is a
      candidate and picked; and only the head when the table has no optional
      column. */
  lemma ColumnsShape(o: Ordering, present: set<Column>)
    ensures var cols := Columns(o, present);
      && |Head(o)| <= |cols| && cols[..|Head(o)|] == Head(o)
      && InOrder(cols, o)
      && (forall c :: c in cols <==> IsCandidate(o, c) && Picked(c, present))
      && ((forall c :: IsOptional(c) ==> c !in present) ==> cols == Head(o))
  {
    HeadChosen(o, present);
    ChosenPrefix(o, |Head(o)|, Count(o), present);
    ChosenInOrder(o, Count(o), present);
    ChosenMembers(o, Count(o), present);
    if forall c :: IsOptional(c) ==> c !in present {
      forall i | |Head(o)| <= i < Count(o) ensures !Picked(Cand(o, i), present) {
        CandOptional(o, i);
      }
      ChosenSkip(o, |Head(o)|, Count(o), present);
    }
  }

  /** Hence every optional column a statement names exists in the table, and
      the colour rule holds. */
  lemma ColumnsSafe(o: Ordering, present: set<Column>)
    ensures SchemaSafe(Columns(o, present), present)
    ensures ColorChoice(Columns(o, present), present)
  {
    ChosenMembers(o, Count(o), present);
    assert IsCandidate(o, ChatColor) && IsCandidate(o, Color);
  }

  // ---------------------------------------------------------------------------
  // SELECT lists

  /** One entry of a SELECT list: a column, optionally renamed with `as`. */
  datatype SelectItem = SelectItem(col: Column, alias: Option<Column>)

  /** How a builder selects a column: with `aliasColor`, the legacy `Color` is
      selected `as ChatColor`; nothing else is ever renamed. */
  function ItemFor(c: Column, aliasColor: bool): SelectItem {
    SelectItem(c, if aliasColor && c == Color then Some(ChatColor) else None)
  }

  /** The SELECT list that reads the given columns. */
  function SelectFor(cols: seq<Column>, aliasColor: bool): seq<SelectItem> {
    if cols == [] then [] else SelectFor(cols[..|cols| - 1], aliasColor) + [ItemFor(cols[|cols| - 1], aliasColor)]
  }

  /** Entry by entry, the SELECT list reads the columns in order, renaming only
      the legacy colour column. */
  lemma {:induction false} SelectForItems(cols: seq<Column>, aliasColor: bool)
    ensures |SelectFor(cols, aliasColor)| == |cols|
    ensures forall i :: 0 <= i < |cols| ==> SelectFor(cols, aliasColor)[i] == ItemFor(cols[i], aliasColor)
    decreases |cols|
  {
    if cols != [] {
      SelectForItems(cols[..|cols| - 1], aliasColor);
    }
  }

  /** The name the column has in the fetched row. */
  function OutputColumn(item: SelectItem): Column {
    item.alias.GetOr(item.col)
  }

  function OutputColumns(select: seq<SelectItem>): set<Column> {
    set i | 0 <= i < |select| :: OutputColumn(select[i])
  }

  /** The fields of a fetched row: each column under its own name, except that
      with `aliasColor` the legacy `Color` arrives as `ChatColor`. */
  lemma SelectOutputs(cols: seq<Column>, aliasColor: bool)
    ensures forall x :: x in OutputColumns(SelectFor(cols, aliasColor)) <==>
      if aliasColor && x == ChatColor then ChatColor in cols || Color in cols
      else if aliasColor && x == Color then false
      else x in cols
  {
    var select := SelectFor(cols, aliasColor);
    SelectForItems(cols, aliasColor);
    forall x ensures x in OutputColumns(select) <==>
      if aliasColor && x == ChatColor then ChatColor in cols || Color in cols
      else if aliasColor && x == Color then false
      else x in cols
    {
      if x in OutputColumns(select) {
        var i :| 0 <= i < |select| && OutputColumn(select[i]) == x;
        assert select[i] == ItemFor(cols[i], aliasColor);
      }
      if x in cols {
        var i :| 0 <= i < |cols| && cols[i] == x;
        assert OutputColumn(select[i]) in OutputColumns(select);
      }
      if aliasColor && x == ChatColor && Color in cols {
        var i :| 0 <= i < |cols| && cols[i] == Color;
        assert OutputColumn(select[i]) in OutputColumns(select);
      }
    }
  }

  lemma SelectSnoc(cols: seq<Column>, c: Column, aliasColor: bool)
    ensures SelectFor(cols + [c], aliasColor) == SelectFor(cols, aliasColor) + [ItemFor(c, aliasColor)]
  {
    InitOfSnoc(cols, c);
  }

  lemma InitOfSnoc<T>(s: seq<T>, x: T)
    ensures (s + [x])[..|s|] == s
  {
  }

  const MandatoryItems: seq<SelectItem> :=
    [SelectItem(Id, None), SelectItem(Name, None), SelectItem(Tag, None),
     SelectItem(OwnerId, None), SelectItem(TotalPoints, None), SelectItem(Tier, None)]

  lemma MandatoryStart(o: Ordering, aliasColor: bool, present: set<Column>)
    requires o != UpdateOrder
    ensures ChosenUpTo(o, 6, present) == Mandatory
    ensures SelectFor(Mandatory, aliasColor) == MandatoryItems
  {
    HeadChosen(o, present);
    SelectForItems(Mandatory, aliasColor);
  }

  /** Two independent checks in a row for the candidates `k` and `k + 1` (the
      two timestamps, or `Prefix` then `Suffix`):
      `if (has1) selectColumns += ', <item1>'; if (has2) selectColumns += ', <item2>'`. */
  method AppendEach(has1: bool, has2: bool, select: seq<SelectItem>, item1: SelectItem, item2: SelectItem,
                    ghost c1: Column, ghost c2: Column, ghost o: Ordering, ghost k: nat,
                    ghost present: set<Column>, ghost aliasColor: bool, ghost cols: seq<Column>)
    returns (select': seq<SelectItem>, ghost cols': seq<Column>)
    requires k + 1 < Count(o) && Rank(o, c1) == k && Rank(o, c2) == k + 1
    requires has1 == Picked(c1, present) && has2 == Picked(c2, present)
    requires item1 == ItemFor(c1, aliasColor) && item2 == ItemFor(c2, aliasColor)
    requires cols == ChosenUpTo(o, k, present) && select == SelectFor(cols, aliasColor)
    ensures cols' == ChosenUpTo(o, k + 2, present) && select' == SelectFor(cols', aliasColor)
  {
    ChosenStep(o, k, c1, present);
    ChosenStep(o, k + 1, c2, present);
    select', cols' := select, cols;
    if has1 {
      SelectSnoc(cols', c1, aliasColor);
      select', cols' := select' + [item1], cols' + [c1];
    }
    if has2 {
      SelectSnoc(cols', c2, aliasColor);
      select', cols' := select' + [item2], cols' + [c2];
    }
  }

  /** The colour check for the candidates `k` (`ChatColor`) and `k + 1`
      (`Color`): `if (hasChatColor) selectColumns += ', ChatColor';
      else if (hasColor) selectColumns += ', <colorItem>'`. */
  method AppendColor(hasChatColor: bool, hasColor: bool, select: seq<SelectItem>, colorItem: SelectItem,
                     ghost o: Ordering, ghost k: nat, ghost present: set<Column>, ghost aliasColor: bool,
                     ghost cols: seq<Column>)
    returns (select': seq<SelectItem>, ghost cols': seq<Column>)
    requires k + 1 < Count(o) && Rank(o, ChatColor) == k && Rank(o, Color) == k + 1
    requires hasChatColor == (ChatColor in present) && hasColor == (Color in present)
    requires colorItem == ItemFor(Color, aliasColor)
    requires cols == ChosenUpTo(o, k, present) && select == SelectFor(cols, aliasColor)
    ensures cols' == ChosenUpTo(o, k + 2, present) && select' == SelectFor(cols', aliasColor)
  {
    ChosenStep(o, k, ChatColor, present);
    ChosenStep(o, k + 1, Color, present);
    if hasChatColor {
      SelectSnoc(cols, ChatColor, aliasColor);
      select', cols' := select + [SelectItem(ChatColor, None)], cols + [ChatColor];
    } else if hasColor {
      SelectSnoc(cols, Color, aliasColor);
      select', cols' := select + [colorItem], cols + [Color];
    } else {
      select', cols' := select, cols;
    }
  }

  /** `AppendEach` for the builders that also keep a GROUP BY list: each check
      appends the column to both lists. */
  method AppendBothEach(has1: bool, has2: bool, select: seq<SelectItem>, groupBy: seq<Column>,
                        item1: SelectItem, item2: SelectItem, c1: Column, c2: Column,
                        ghost o: Ordering, ghost k: nat, ghost present: set<Column>, ghost aliasColor: bool)
    returns (select': seq<SelectItem>, groupBy': seq<Column>)
    requires k + 1 < Count(o) && Rank(o, c1) == k && Rank(o, c2) == k + 1
    requires has1 == Picked(c1, present) && has2 == Picked(c2, present)
    requires item1 == ItemFor(c1, aliasColor) && item2 == ItemFor(c2, aliasColor)
    requires groupBy == ChosenUpTo(o, k, present) && select == SelectFor(groupBy, aliasColor)
    ensures groupBy' == ChosenUpTo(o, k + 2, present) && select' == SelectFor(groupBy', aliasColor)
  {
    ChosenStep(o, k, c1, present);
    ChosenStep(o, k + 1, c2, present);
    select', groupBy' := select, groupBy;
    if has1 {
      SelectSnoc(groupBy', c1, aliasColor);
      select', groupBy' := select' + [item1], groupBy' + [c1];
    }
    if has2 {
      SelectSnoc(groupBy', c2, aliasColor);
      select', groupBy' := select' + [item2], groupBy' + [c2];
    }
  }

  /** `AppendColor` for the builders that also keep a GROUP BY list; the
      GROUP BY entry is always the column itself, `Color` even where the
      SELECT entry renames it. */
  method AppendBothColor(hasChatColor: bool, hasColor: bool, select: seq<SelectItem>, groupBy: seq<Column>,
                         colorItem: SelectItem, ghost o: Ordering, ghost k: nat, ghost present: set<Column>,
                         ghost aliasColor: bool)
    returns (select': seq<SelectItem>, groupBy': seq<Column>)
    requires k + 1 < Count(o) && Rank(o, ChatColor) == k && Rank(o, Color) == k + 1
    requires hasChatColor == (ChatColor in present) && hasColor == (Color in present)
    requires colorItem == ItemFor(Color, aliasColor)
    requires groupBy == ChosenUpTo(o, k, present) && select == SelectFor(groupBy, aliasColor)
    ensures groupBy' == ChosenUpTo(o, k + 2, present) && select' == SelectFor(groupBy', aliasColor)
  {
    ChosenStep(o, k, ChatColor, present);
    ChosenStep(o, k + 1, Color, present);
    if hasChatColor {
      SelectSnoc(groupBy, ChatColor, aliasColor);
      select', groupBy' := select + [SelectItem(ChatColor, None)], groupBy + [ChatColor];
    } else if hasColor {
      SelectSnoc(groupBy, Color, aliasColor);
      select', groupBy' := select + [colorItem], groupBy + [Color];
    } else {
      select', groupBy' := select, groupBy;
    }
  }

  /** SELECT list and GROUP BY list of GET /api/factions (server.js:87-112). */
  method BuildListingColumns(present: set<Column>) returns (select: seq<SelectItem>, groupBy: seq<Column>)
    ensures groupBy == Columns(ListingOrder, present)
    ensures select == SelectFor(groupBy, false)
  {
    ghost var o := ListingOrder;
    MandatoryStart(o, false, present);
    select := [SelectItem(Id, None), SelectItem(Name, None), SelectItem(Tag, None),
               SelectItem(OwnerId, None), SelectItem(TotalPoints, None), SelectItem(Tier, None)];
    groupBy := [Id, Name, Tag, OwnerId, TotalPoints, Tier];
    var hasChatColor, hasColor := ChatColor in present, Color in present;
    select, groupBy := AppendBothEach(CreatedAt in present, UpdatedAt in present, select, groupBy,
                                      SelectItem(CreatedAt, None), SelectItem(UpdatedAt, None), CreatedAt, UpdatedAt,
                                      o, 6, present, false);
    select, groupBy := AppendBothColor(hasChatColor, hasColor, select, groupBy, SelectItem(Color, None),
                                       o, 8, present, false);
    select, groupBy := AppendBothEach(Prefix in present, Suffix in present, select, groupBy,
                                      SelectItem(Prefix, None), SelectItem(Suffix, None), Prefix, Suffix,
                                      o, 10, present, false);
  }

  /** SELECT list and GROUP BY list of GET /api/leaderboard (server.js:542-567):
      the listing's lists, except that `Color` is selected `as ChatColor` while
      GROUP BY keeps naming `Color`. */
  method BuildLeaderboardColumns(present: set<Column>) returns (select: seq<SelectItem>, groupBy: seq<Column>)
    ensures groupBy == Columns(ListingOrder, present)
    ensures select == SelectFor(groupBy, true)
  {
    ghost var o := ListingOrder;
    MandatoryStart(o, true, present);
    select := [SelectItem(Id, None), SelectItem(Name, None), SelectItem(Tag, None),
               SelectItem(OwnerId, None), SelectItem(TotalPoints, None), SelectItem(Tier, None)];
    groupBy := [Id, Name, Tag, OwnerId, TotalPoints, Tier];
    var hasChatColor, hasColor := ChatColor in present, Color in present;
    select, groupBy := AppendBothEach(CreatedAt in present, UpdatedAt in present, select, groupBy,
                                      SelectItem(CreatedAt, None), SelectItem(UpdatedAt, None), CreatedAt, UpdatedAt,
                                      o, 6, present, true);
    select, groupBy := AppendBothColor(hasChatColor, hasColor, select, groupBy, SelectItem(Color, Some(ChatColor)),
                                       o, 8, present, true);
    select, groupBy := AppendBothEach(Prefix in present, Suffix in present, select, groupBy,
                                      SelectItem(Prefix, None), SelectItem(Suffix, None), Prefix, Suffix,
                                      o, 10, present, true);
  }

  /** SELECT list of GET /api/factions/:id (server.js:171-177): no GROUP BY, a
      different order, and `Color as ChatColor`. */
  method BuildDetailsColumns(present: set<Column>) returns (select: seq<SelectItem>)
    ensures select == SelectFor(Columns(DetailsOrder, present), true)
  {
    ghost var o := DetailsOrder;
    MandatoryStart(o, true, present);
    select := [SelectItem(Id, None), SelectItem(Name, None), SelectItem(Tag, None),
               SelectItem(OwnerId, None), SelectItem(TotalPoints, None), SelectItem(Tier, None)];
    ghost var cols := Mandatory;
    var hasChatColor, hasColor := ChatColor in present, Color in present;
    select, cols := AppendColor(hasChatColor, hasColor, select, SelectItem(Color, Some(ChatColor)),
                                o, 6, present, true, cols);
    select, cols := AppendEach(Prefix in present, Suffix in present, select,
                               SelectItem(Prefix, None), SelectItem(Suffix, None), Prefix, Suffix,
                               o, 8, present, true, cols);
    select, cols := AppendEach(CreatedAt in present, UpdatedAt in present, select,
                               SelectItem(CreatedAt, None), SelectItem(UpdatedAt, None), CreatedAt, UpdatedAt,
                               o, 10, present, true, cols);
  }

  /** Where `Color` is renamed, the fetched row carries `ChatColor` exactly
      when one of the two colour columns exists, and never `Color`; every other
      optional column arrives exactly when it exists. */
  lemma AliasedRowFields(o: Ordering, present: set<Column>)
    requires o != UpdateOrder
    ensures var out := OutputColumns(SelectFor(Columns(o, present), true));
      && (ChatColor in out <==> ChatColor in present || Color in present)
      && Color !in out
      && (forall c :: IsOptional(c) && c != ChatColor && c != Color ==> (c in out <==> c in present))
  {
    ChosenMembers(o, Count(o), present);
    SelectOutputs(Columns(o, present), true);
  }

  // ---------------------------------------------------------------------------
  // Defaults filled in after the fetch

  /** A fetched faction row: the fields it carries, by output name. */
  type Row = map<Column, JsValue>

  /** `row.field`: `undefined` when the row has no such field. */
  function Get(row: Row, c: Column): JsValue {
    if c in row then row[c] else Undefined
  }

  /** GET /api/factions (server.js:134-138): copy a truthy `Color` into
      `ChatColor`, or use 'cyan' when neither column exists. */
  function ListingColorDefault(present: set<Column>, f: Row): Row {
    if ChatColor !in present && Color in present && Truthy(Get(f, Color)) then f[ChatColor := f[Color]]
    else if ChatColor !in present && Color !in present then f[ChatColor := Str("cyan")]
    else f
  }

  /** GET /api/factions/:id and GET /api/leaderboard (server.js:191-195,
      server.js:584-588): the same rule, guarded also by `ChatColor === undefined`. */
  function AliasedColorDefault(present: set<Column>, f: Row): Row {
    if ChatColor !in present && Color in present && Get(f, ChatColor).Undefined? && Truthy(Get(f, Color)) then
      f[ChatColor := f[Color]]
    else if ChatColor !in present && Color !in present then f[ChatColor := Str("cyan")]
    else f
  }

  /** Missing `Prefix` / `Suffix` columns read as '' (server.js:140-141, server.js:196-197). */
  function AffixDefaults(present: set<Column>, f: Row): Row {
    var g := if Prefix !in present then f[Prefix := Str("")] else f;
    if Suffix !in present then g[Suffix := Str("")] else g
  }

  /** A listing row, fetched with the listing's SELECT list, after its defaults:
      `Prefix` and `Suffix` are always there (as '' when the column is missing);
      `ChatColor` is the stored value, else a truthy legacy `Color`, else 'cyan'
      when neither column exists; it is missing only when the table has just
      `Color` and the row's `Color` is falsy. Nothing else changes. */
  lemma ListingDefaultsComplete(present: set<Column>, f: Row)
    requires f.Keys == OutputColumns(SelectFor(Columns(ListingOrder, present), false))
    ensures var g := AffixDefaults(present, ListingColorDefault(present, f));
      && Prefix in g && Suffix in g
      && (Prefix !in present ==> g[Prefix] == Str(""))
      && (Suffix !in present ==> g[Suffix] == Str(""))
      && (ChatColor in present ==> ChatColor in f && g[ChatColor] == f[ChatColor])
      && (ChatColor !in present && Color in present ==>
            if Truthy(Get(f, Color)) then ChatColor in g && g[ChatColor] == Get(f, Color) else ChatColor !in g)
      && (ChatColor !in present && Color !in present ==> ChatColor in g && g[ChatColor] == Str("cyan"))
      && (forall c :: c in f && c != ChatColor ==> c in g && g[c] == f[c])
  {
    var cols := Columns(ListingOrder, present);
    ChosenMembers(ListingOrder, 12, present);
    SelectOutputs(cols, false);
    assert forall c :: c in f <==> c in cols;
  }

  /** On the single-faction and leaderboard paths the alias already names the
      legacy column `ChatColor`, so the copy from `Color` never fires: the fix-up
      leaves the row as fetched when either colour column exists, and every row
      ends with a `ChatColor` field. */
  lemma AliasedDefaultsComplete(o: Ordering, present: set<Column>, f: Row)
    requires o != UpdateOrder
    requires f.Keys == OutputColumns(SelectFor(Columns(o, present), true))
    ensures ChatColor in present || Color in present ==> AliasedColorDefault(present, f) == f
    ensures ChatColor in AliasedColorDefault(present, f)
    ensures ChatColor !in present && Color !in present ==>
              AliasedColorDefault(present, f) == f[ChatColor := Str("cyan")]
  {
    AliasedRowFields(o, present);
  }

  /** GET /api/factions/:id (server.js:190-197): the colour rule, then '' for
      a missing `Prefix` or `Suffix` column. */
  function DetailsDefaults(present: set<Column>, f: Row): Row {
    AffixDefaults(present, AliasedColorDefault(present, f))
  }

  /** A single-faction row after its defaults: exactly the fetched fields plus
      `ChatColor`, `Prefix` and `Suffix`; every fetched field keeps its value;
      a field added for a missing column holds its default ('cyan' or ''). */
  lemma DetailsDefaultsComplete(present: set<Column>, f: Row)
    requires f.Keys == OutputColumns(SelectFor(Columns(DetailsOrder, present), true))
    ensures var g := DetailsDefaults(present, f);
      && g.Keys == f.Keys + {ChatColor, Prefix, Suffix}
      && (forall c :: c in f ==> g[c] == f[c])
      && (Prefix in f <==> Prefix in present) && (Suffix in f <==> Suffix in present)
      && (Prefix !in present ==> g[Prefix] == Str(""))
      && (Suffix !in present ==> g[Suffix] == Str(""))
      && (ChatColor in f <==> ChatColor in present || Color in present)
      && (ChatColor !in present && Color !in present ==> g[ChatColor] == Str("cyan"))
  {
    AliasedRowFields(DetailsOrder, present);
    AliasedDefaultsComplete(DetailsOrder, present, f);
  }

  /** The leaderboard applies the colour rule only (server.js:583-590): a row
      carries `Prefix` or `Suffix` just when the table has that column, and
      nothing fetched changes except through the colour rule. */
  lemma LeaderboardHasNoAffixDefaults(present: set<Column>, f: Row)
    requires f.Keys == OutputColumns(SelectFor(Columns(ListingOrder, present), true))
    ensures var g := AliasedColorDefault(present, f);
      && g.Keys == f.Keys + {ChatColor}
      && (forall c :: c in f ==> g[c] == f[c])
      && (Prefix in g <==> Prefix in present) && (Suffix in g <==> Suffix in present)
  {
    AliasedRowFields(ListingOrder, present);
    AliasedDefaultsComplete(ListingOrder, present, f);
  }

  // ---------------------------------------------------------------------------
  // INSERT

  /** The body of POST /api/factions, before its destructuring defaults. */
  datatype CreateBody = CreateBody(
    id: JsValue, name: JsValue, tag: JsValue, prefix: JsValue,
    suffix: JsValue, chatColor: JsValue, ownerId: JsValue)

  /** An entry of a VALUES list or of a SET assignment: a `?` bound to the next
      parameter, or SQL text. */
  datatype ValueExpr = Placeholder | Literal(sql: string)

  /** What the INSERT gives each column: fixed SQL for the counters and the
      timestamps, a `?` for everything else (server.js:366, server.js:369-376). */
  function InsertExpr(c: Column): ValueExpr {
    match c
    case TotalPoints => Literal("0")
    case Tier => Literal("1")
    case CreatedAt => Literal("CURRENT_TIMESTAMP")
    case UpdatedAt => Literal("CURRENT_TIMESTAMP")
    case _ => Placeholder
  }

  /** The VALUES list for the given columns. */
  function InsertExprs(cols: seq<Column>): seq<ValueExpr> {
    if cols == [] then [] else InsertExprs(cols[..|cols| - 1]) + [InsertExpr(cols[|cols| - 1])]
  }

  /** The columns given a `?`, in order: the k-th `?` binds the k-th of them. */
  function BoundColumns(cols: seq<Column>): seq<Column> {
    if cols == [] then []
    else
      var last := cols[|cols| - 1];
      BoundColumns(cols[..|cols| - 1]) + (if InsertExpr(last) == Placeholder then [last] else [])
  }

  /** The value the create handler binds for a column (server.js:328-336 with
      the `|| default` of server.js:367-398). */
  function InsertValue(body: CreateBody, c: Column): JsValue {
    match c
    case Id => body.id
    case Name => body.name
    case Tag => Or(WithDefault(body.tag, Str("")), Str(""))
    case OwnerId => body.ownerId
    case ChatColor => Or(WithDefault(body.chatColor, Str("cyan")), Str("cyan"))
    case Color => Or(WithDefault(body.chatColor, Str("cyan")), Str("cyan"))
    case Prefix => Or(WithDefault(body.prefix, Str("")), Str(""))
    case Suffix => Or(WithDefault(body.suffix, Str("")), Str(""))
    case _ => Undefined
  }

  /** The parameter list for the given columns: one value per `?`. */
  function InsertParams(body: CreateBody, cols: seq<Column>): seq<JsValue> {
    if cols == [] then []
    else
      var last := cols[|cols| - 1];
      InsertParams(body, cols[..|cols| - 1]) + (if InsertExpr(last) == Placeholder then [InsertValue(body, last)] else [])
  }

  /** The INSERT is well formed: one VALUES entry per column, each the column's
      own; the columns bound are exactly those given a `?`; and one parameter
      per bound column, each that column's value. */
  lemma {:induction false} InsertBinding(body: CreateBody, cols: seq<Column>)
    ensures |InsertExprs(cols)| == |cols|
    ensures forall i :: 0 <= i < |cols| ==> InsertExprs(cols)[i] == InsertExpr(cols[i])
    ensures forall c :: c in BoundColumns(cols) <==> c in cols && InsertExpr(c) == Placeholder
    ensures |InsertParams(body, cols)| == |BoundColumns(cols)|
    ensures forall k :: 0 <= k < |InsertParams(body, cols)| ==>
              InsertParams(body, cols)[k] == InsertValue(body, BoundColumns(cols)[k])
    decreases |cols|
  {
    if cols != [] {
      var init := cols[..|cols| - 1];
      InsertBinding(body, init);
      assert cols == init + [cols[|cols| - 1]];
    }
  }

  /** How many `?` a VALUES list holds. */
  function PlaceholderCount(values: seq<ValueExpr>): nat {
    if values == [] then 0
    else PlaceholderCount(values[..|values| - 1]) + (if values[|values| - 1] == Placeholder then 1 else 0)
  }

  /** The INSERT binds exactly as many parameters as its VALUES list has `?`s. */
  lemma {:induction false} InsertPlaceholders(body: CreateBody, cols: seq<Column>)
    ensures PlaceholderCount(InsertExprs(cols)) == |InsertParams(body, cols)|
    decreases |cols|
  {
    if cols != [] {
      var init, last := cols[..|cols| - 1], cols[|cols| - 1];
      InsertPlaceholders(body, init);
      assert cols == init + [last];
      InsertSnoc(body, init, last);
      InitOfSnoc(InsertExprs(init), InsertExpr(last));
    }
  }

  /** Appending one column to the INSERT extends the VALUES list by its entry,
      and the parameters by its value exactly when that entry is a `?`. */
  lemma InsertSnoc(body: CreateBody, cols: seq<Column>, c: Column)
    ensures InsertExprs(cols + [c]) == InsertExprs(cols) + [InsertExpr(c)]
    ensures InsertExpr(c) == Placeholder ==>
              InsertParams(body, cols + [c]) == InsertParams(body, cols) + [InsertValue(body, c)]
    ensures InsertExpr(c) != Placeholder ==> InsertParams(body, cols + [c]) == InsertParams(body, cols)
  {
    InitOfSnoc(cols, c);
    assert InsertParams(body, cols) + [] == InsertParams(body, cols);
  }

  /** The INSERT built so far covers the listing candidates below `k`. */
  ghost predicate InsertSoFar(k: nat, present: set<Column>, body: CreateBody,
                              cols: seq<Column>, values: seq<ValueExpr>, params: seq<JsValue>) {
    k <= Count(ListingOrder) && cols == ChosenUpTo(ListingOrder, k, present)
    && values == InsertExprs(cols) && params == InsertParams(body, cols)
  }

  /** The fixed start of the INSERT: the mandatory columns, with `0` and `1`
      for the counters, bound to the identifier, the name, the tag or '' and
      the owner. */
  lemma InsertStart(body: CreateBody, present: set<Column>)
    ensures InsertSoFar(6, present, body, Mandatory,
                        [Placeholder, Placeholder, Placeholder, Placeholder, Literal("0"), Literal("1")],
                        [InsertValue(body, Id), InsertValue(body, Name), InsertValue(body, Tag), InsertValue(body, OwnerId)])
  {
    MandatoryChosen(ListingOrder, present);
    InsertStartValues();
    InsertStartParams(body);
  }

  lemma InsertStartValues()
    ensures InsertExprs(Mandatory) == [Placeholder, Placeholder, Placeholder, Placeholder, Literal("0"), Literal("1")]
  {
    var m4 := [Id, Name, Tag, OwnerId];
    assert InsertExprs(m4) == [Placeholder, Placeholder, Placeholder, Placeholder] by {
      InsertExprsAll(m4);
    }
    InitOfSnoc(m4, TotalPoints);
    InitOfSnoc(m4 + [TotalPoints], Tier);
    assert Mandatory == m4 + [TotalPoints] + [Tier];
  }

  lemma InsertStartParams(body: CreateBody)
    ensures InsertParams(body, Mandatory) == [InsertValue(body, Id), InsertValue(body, Name), InsertValue(body, Tag), InsertValue(body, OwnerId)]
  {
    var m4 := [Id, Name, Tag, OwnerId];
    BoundParams(body, m4);
    InsertSnoc(body, m4, TotalPoints);
    InsertSnoc(body, m4 + [TotalPoints], Tier);
    assert Mandatory == m4 + [TotalPoints] + [Tier];
  }

  lemma {:induction false} InsertExprsAll(cols: seq<Column>)
    ensures |InsertExprs(cols)| == |cols|
    ensures forall i :: 0 <= i < |cols| ==> InsertExprs(cols)[i] == InsertExpr(cols[i])
    decreases |cols|
  {
    if cols != [] {
      InsertExprsAll(cols[..|cols| - 1]);
    }
  }

  /** Columns that all take a `?` are bound in order, one parameter each. */
  lemma BoundParams(body: CreateBody, cols: seq<Column>)
    requires forall i :: 0 <= i < |cols| ==> InsertExpr(cols[i]) == Placeholder
    ensures |InsertParams(body, cols)| == |cols|
    ensures forall i :: 0 <= i < |cols| ==> InsertParams(body, cols)[i] == InsertValue(body, cols[i])
  {
    InsertBinding(body, cols);
    BoundAll(cols);
  }

  /** Columns that all take a `?` are all bound. */
  lemma {:induction false} BoundAll(cols: seq<Column>)
    requires forall i :: 0 <= i < |cols| ==> InsertExpr(cols[i]) == Placeholder
    ensures BoundColumns(cols) == cols
    decreases |cols|
  {
    if cols != [] {
      var init := cols[..|cols| - 1];
      BoundAll(init);
      assert cols == init + [cols[|cols| - 1]];
    }
  }

  /** The timestamp checks of the INSERT (server.js:369-376): each present
      timestamp column gets `CURRENT_TIMESTAMP` and binds nothing. */
  method InsertTimestamps(hasCreatedAt: bool, hasUpdatedAt: bool,
                          cols: seq<Column>, values: seq<ValueExpr>, params: seq<JsValue>,
                          ghost body: CreateBody, ghost present: set<Column>)
    returns (cols': seq<Column>, values': seq<ValueExpr>, params': seq<JsValue>)
    requires hasCreatedAt == (CreatedAt in present) && hasUpdatedAt == (UpdatedAt in present)
    requires InsertSoFar(6, present, body, cols, values, params)
    ensures InsertSoFar(8, present, body, cols', values', params')
  {
    ChosenStep(ListingOrder, 6, CreatedAt, present);
    ChosenStep(ListingOrder, 7, UpdatedAt, present);
    cols', values', params' := cols, values, params;
    if hasCreatedAt {
      InsertSnoc(body, cols', CreatedAt);
      cols', values' := cols' + [CreatedAt], values' + [Literal("CURRENT_TIMESTAMP")];
    }
    if hasUpdatedAt {
      InsertSnoc(body, cols', UpdatedAt);
      cols', values' := cols' + [UpdatedAt], values' + [Literal("CURRENT_TIMESTAMP")];
    }
  }

  /** The colour check of the INSERT (server.js:378-387): `ChatColor` when it
      exists, otherwise `Color`, either bound to `ChatColor || 'cyan'`. */
  method InsertColor(hasChatColor: bool, hasColor: bool,
                     cols: seq<Column>, values: seq<ValueExpr>, params: seq<JsValue>, color: JsValue,
                     ghost body: CreateBody, ghost present: set<Column>)
    returns (cols': seq<Column>, values': seq<ValueExpr>, params': seq<JsValue>)
    requires hasChatColor == (ChatColor in present) && hasColor == (Color in present)
    requires color == InsertValue(body, ChatColor)
    requires InsertSoFar(8, present, body, cols, values, params)
    ensures InsertSoFar(10, present, body, cols', values', params')
  {
    ChosenStep(ListingOrder, 8, ChatColor, present);
    ChosenStep(ListingOrder, 9, Color, present);
    if hasChatColor {
      InsertSnoc(body, cols, ChatColor);
      cols', values', params' := cols + [ChatColor], values + [Placeholder], params + [color];
    } else if hasColor {
      InsertSnoc(body, cols, Color);
      cols', values', params' := cols + [Color], values + [Placeholder], params + [color];
    } else {
      cols', values', params' := cols, values, params;
    }
  }

  /** The affix checks of the INSERT (server.js:389-399): each present affix
      column is bound to its value or ''. */
  method InsertAffixes(hasPrefix: bool, hasSuffix: bool,
                       cols: seq<Column>, values: seq<ValueExpr>, params: seq<JsValue>,
                       prefix: JsValue, suffix: JsValue, ghost body: CreateBody, ghost present: set<Column>)
    returns (cols': seq<Column>, values': seq<ValueExpr>, params': seq<JsValue>)
    requires hasPrefix == (Prefix in present) && hasSuffix == (Suffix in present)
    requires prefix == InsertValue(body, Prefix) && suffix == InsertValue(body, Suffix)
    requires InsertSoFar(10, present, body, cols, values, params)
    ensures InsertSoFar(12, present, body, cols', values', params')
  {
    ChosenStep(ListingOrder, 10, Prefix, present);
    ChosenStep(ListingOrder, 11, Suffix, present);
    cols', values', params' := cols, values, params;
    if hasPrefix {
      InsertSnoc(body, cols', Prefix);
      cols', values', params' := cols' + [Prefix], values' + [Placeholder], params' + [prefix];
    }
    if hasSuffix {
      InsertSnoc(body, cols', Suffix);
      cols', values', params' := cols' + [Suffix], values' + [Placeholder], params' + [suffix];
    }
  }

  /** The INSERT of POST /api/factions (server.js:365-399): the columns chosen
      in the listing order, their VALUES, and one parameter per `?`. */
  method BuildInsert(present: set<Column>, body: CreateBody)
    returns (cols: seq<Column>, values: seq<ValueExpr>, params: seq<JsValue>)
    ensures cols == Columns(ListingOrder, present)
    ensures values == InsertExprs(cols)
    ensures params == InsertParams(body, cols)
  {
    InsertStart(body, present);
    var tag := WithDefault(body.tag, Str(""));
    var prefix := WithDefault(body.prefix, Str(""));
    var suffix := WithDefault(body.suffix, Str(""));
    var chatColor := WithDefault(body.chatColor, Str("cyan"));
    cols := [Id, Name, Tag, OwnerId, TotalPoints, Tier];
    values := [Placeholder, Placeholder, Placeholder, Placeholder, Literal("0"), Literal("1")];
    params := [body.id, body.name, Or(tag, Str("")), body.ownerId];
    cols, values, params := InsertTimestamps(CreatedAt in present, UpdatedAt in present, cols, values, params,
                                             body, present);
    cols, values, params := InsertColor(ChatColor in present, Color in present, cols, values, params,
                                        Or(chatColor, Str("cyan")), body, present);
    cols, values, params := InsertAffixes(Prefix in present, Suffix in present, cols, values, params,
                                          Or(prefix, Str("")), Or(suffix, Str("")), body, present);
  }

  // ---------------------------------------------------------------------------
  // UPDATE

  /** The body of PUT /api/factions/:id. */
  datatype UpdateBody = UpdateBody(name: JsValue, tag: JsValue, prefix: JsValue, suffix: JsValue, chatColor: JsValue)

  /** One entry of the SET clause: `col = ?` or `col = <sql>`. */
  datatype Assignment = Assignment(col: Column, value: ValueExpr)

  /** The timestamp is set by the database; every other column is bound. */
  function UpdateExpr(c: Column): ValueExpr {
    if c == UpdatedAt then Literal("CURRENT_TIMESTAMP") else Placeholder
  }

  /** The SET list for the given columns. */
  function AssignmentsFor(cols: seq<Column>): seq<Assignment> {
    if cols == [] then [] else AssignmentsFor(cols[..|cols| - 1]) + [Assignment(cols[|cols| - 1], UpdateExpr(cols[|cols| - 1]))]
  }

  /** The value the update handler binds for a column (server.js:440-477). */
  function UpdateValue(body: UpdateBody, c: Column): JsValue {
    match c
    case Name => body.name
    case Tag => Or(body.tag, Str(""))
    case Prefix => Or(body.prefix, Str(""))
    case Suffix => Or(body.suffix, Str(""))
    case ChatColor => Or(body.chatColor, Str("cyan"))
    case Color => Or(body.chatColor, Str("cyan"))
    case _ => Undefined
  }

  /** The columns assigned a `?`, in order. */
  function UpdateBound(cols: seq<Column>): seq<Column> {
    if cols == [] then []
    else
      var last := cols[|cols| - 1];
      UpdateBound(cols[..|cols| - 1]) + (if last != UpdatedAt then [last] else [])
  }

  /** The parameters bound to the SET list's `?`s, in order. */
  function UpdateParams(body: UpdateBody, cols: seq<Column>): seq<JsValue> {
    if cols == [] then []
    else
      var last := cols[|cols| - 1];
      UpdateParams(body, cols[..|cols| - 1]) + (if last != UpdatedAt then [UpdateValue(body, last)] else [])
  }

  /** The UPDATE is well formed: one SET entry per column, a `?` for each but
      the timestamp; and one parameter per `?`, each its column's value. */
  lemma {:induction false} UpdateBinding(body: UpdateBody, cols: seq<Column>)
    ensures |AssignmentsFor(cols)| == |cols|
    ensures forall i :: 0 <= i < |cols| ==> AssignmentsFor(cols)[i] == Assignment(cols[i], UpdateExpr(cols[i]))
    ensures forall c :: c in UpdateBound(cols) <==> c in cols && c != UpdatedAt
    ensures |UpdateParams(body, cols)| == |UpdateBound(cols)|
    ensures forall k :: 0 <= k < |UpdateParams(body, cols)| ==>
              UpdateParams(body, cols)[k] == UpdateValue(body, UpdateBound(cols)[k])
    decreases |cols|
  {
    if cols != [] {
      var init := cols[..|cols| - 1];
      UpdateBinding(body, init);
      assert cols == init + [cols[|cols| - 1]];
    }
  }

  /** How many `?` a SET list holds. */
  function SetPlaceholders(fields: seq<Assignment>): nat {
    if fields == [] then 0
    else SetPlaceholders(fields[..|fields| - 1]) + (if fields[|fields| - 1].value == Placeholder then 1 else 0)
  }

  /** The SET list's `?`s bind exactly the parameters UpdateParams lists. */
  lemma {:induction false} UpdatePlaceholders(body: UpdateBody, cols: seq<Column>)
    ensures SetPlaceholders(AssignmentsFor(cols)) == |UpdateParams(body, cols)|
    decreases |cols|
  {
    if cols != [] {
      var init, last := cols[..|cols| - 1], cols[|cols| - 1];
      UpdatePlaceholders(body, init);
      assert cols == init + [last];
      UpdateSnoc(body, init, last);
      InitOfSnoc(AssignmentsFor(init), Assignment(last, UpdateExpr(last)));
    }
  }

  /** Appending one column to the SET list adds its assignment, and a
      parameter exactly when the column is not the timestamp. */
  lemma UpdateSnoc(body: UpdateBody, cols: seq<Column>, c: Column)
    ensures AssignmentsFor(cols + [c]) == AssignmentsFor(cols) + [Assignment(c, UpdateExpr(c))]
    ensures c != UpdatedAt ==> UpdateParams(body, cols + [c]) == UpdateParams(body, cols) + [UpdateValue(body, c)]
    ensures c == UpdatedAt ==> UpdateParams(body, cols + [c]) == UpdateParams(body, cols)
  {
    InitOfSnoc(cols, c);
    assert UpdateParams(body, cols) + [] == UpdateParams(body, cols);
  }

  /** The SET list built so far covers the update candidates below `k`. */
  ghost predicate UpdateSoFar(k: nat, present: set<Column>, body: UpdateBody,
                              cols: seq<Column>, fields: seq<Assignment>, params: seq<JsValue>) {
    k <= Count(UpdateOrder) && cols == ChosenUpTo(UpdateOrder, k, present)
    && fields == AssignmentsFor(cols) && params == UpdateParams(body, cols)
  }

  /** The fixed start of the SET list: `Name = ?, Tag = ?` bound to the name
      and the tag or ''. */
  lemma UpdateStart(body: UpdateBody, present: set<Column>)
    ensures UpdateSoFar(2, present, body, [Name, Tag],
                        [Assignment(Name, Placeholder), Assignment(Tag, Placeholder)],
                        [body.name, Or(body.tag, Str(""))])
  {
    HeadChosen(UpdateOrder, present);
    UpdateSnoc(body, [], Name);
    assert [] + [Name] == [Name];
    assert AssignmentsFor([Name]) == [Assignment(Name, Placeholder)];
    assert UpdateParams(body, [Name]) == [body.name];
    UpdateSnoc(body, [Name], Tag);
    assert [Name] + [Tag] == [Name, Tag];
  }

  /** The start of the SET list as written: `UpdatedAt = CURRENT_TIMESTAMP`
      follows `Name` and `Tag` unconditionally, which is the rule for a table
      that has the column. */
  lemma UpdateStartAsWritten(body: UpdateBody, seen: set<Column>)
    requires UpdatedAt in seen
    ensures UpdateSoFar(3, seen, body, [Name, Tag, UpdatedAt],
                        [Assignment(Name, Placeholder), Assignment(Tag, Placeholder),
                         Assignment(UpdatedAt, Literal("CURRENT_TIMESTAMP"))],
                        [body.name, Or(body.tag, Str(""))])
  {
    UpdateStart(body, seen);
    ChosenStep(UpdateOrder, 2, UpdatedAt, seen);
    UpdateSnoc(body, [Name, Tag], UpdatedAt);
    assert [Name, Tag] + [UpdatedAt] == [Name, Tag, UpdatedAt];
  }

  /** The timestamp assignment only when the table has the column:
      `if (hasUpdatedAt) updateFields.push('UpdatedAt = CURRENT_TIMESTAMP')`. */
  method AssignTimestamp(hasUpdatedAt: bool, fields: seq<Assignment>,
                         ghost body: UpdateBody, ghost present: set<Column>, ghost params: seq<JsValue>,
                         ghost cols: seq<Column>)
    returns (fields': seq<Assignment>, ghost cols': seq<Column>)
    requires hasUpdatedAt == (UpdatedAt in present)
    requires UpdateSoFar(2, present, body, cols, fields, params)
    ensures UpdateSoFar(3, present, body, cols', fields', params)
  {
    ChosenStep(UpdateOrder, 2, UpdatedAt, present);
    UpdateSnoc(body, cols, UpdatedAt);
    if hasUpdatedAt {
      fields', cols' := fields + [Assignment(UpdatedAt, Literal("CURRENT_TIMESTAMP"))], cols + [UpdatedAt];
    } else {
      fields', cols' := fields, cols;
    }
  }

  /** The affix checks of the UPDATE (server.js:462-470): each present affix
      column is assigned its value or ''. */
  method AssignAffixes(hasPrefix: bool, hasSuffix: bool, fields: seq<Assignment>, params: seq<JsValue>,
                       prefix: JsValue, suffix: JsValue,
                       ghost body: UpdateBody, ghost present: set<Column>, ghost cols: seq<Column>)
    returns (fields': seq<Assignment>, params': seq<JsValue>, ghost cols': seq<Column>)
    requires hasPrefix == (Prefix in present) && hasSuffix == (Suffix in present)
    requires prefix == UpdateValue(body, Prefix) && suffix == UpdateValue(body, Suffix)
    requires UpdateSoFar(3, present, body, cols, fields, params)
    ensures UpdateSoFar(5, present, body, cols', fields', params')
  {
    ChosenStep(UpdateOrder, 3, Prefix, present);
    ChosenStep(UpdateOrder, 4, Suffix, present);
    fields', params', cols' := fields, params, cols;
    if hasPrefix {
      UpdateSnoc(body, cols', Prefix);
      fields', params', cols' := fields' + [Assignment(Prefix, Placeholder)], params' + [prefix], cols' + [Prefix];
    }
    if hasSuffix {
      UpdateSnoc(body, cols', Suffix);
      fields', params', cols' := fields' + [Assignment(Suffix, Placeholder)], params' + [suffix], cols' + [Suffix];
    }
  }

  /** The colour check of the UPDATE (server.js:472-478): `ChatColor` when it
      exists, otherwise `Color`, either assigned `ChatColor || 'cyan'`. */
  method AssignColor(hasChatColor: bool, hasColor: bool, fields: seq<Assignment>, params: seq<JsValue>,
                     color: JsValue, ghost body: UpdateBody, ghost present: set<Column>, ghost cols: seq<Column>)
    returns (fields': seq<Assignment>, params': seq<JsValue>, ghost cols': seq<Column>)
    requires hasChatColor == (ChatColor in present) && hasColor == (Color in present)
    requires color == UpdateValue(body, ChatColor)
    requires UpdateSoFar(5, present, body, cols, fields, params)
    ensures UpdateSoFar(7, present, body, cols', fields', params')
  {
    ChosenStep(UpdateOrder, 5, ChatColor, present);
    ChosenStep(UpdateOrder, 6, Color, present);
    if hasChatColor {
      UpdateSnoc(body, cols, ChatColor);
      fields', params', cols' := fields + [Assignment(ChatColor, Placeholder)], params + [color], cols + [ChatColor];
    } else if hasColor {
      UpdateSnoc(body, cols, Color);
      fields', params', cols' := fields + [Assignment(Color, Placeholder)], params + [color], cols + [Color];
    } else {
      fields', params', cols' := fields, params, cols;
    }
  }

  /** The UPDATE of PUT /api/factions/:id as written (server.js:459-480): it
      sets `UpdatedAt` whatever the catalog says, which is the corrected
      builder run against a catalog that always lists `UpdatedAt`. */
  method BuildUpdateAsWritten(present: set<Column>, body: UpdateBody, factionId: string)
    returns (fields: seq<Assignment>, params: seq<JsValue>)
    ensures fields == AssignmentsFor(Columns(UpdateOrder, present + {UpdatedAt}))
    ensures params == UpdateParams(body, Columns(UpdateOrder, present + {UpdatedAt})) + [Str(factionId)]
  {
    ghost var seen := present + {UpdatedAt};
    UpdateStartAsWritten(body, seen);
    fields := [Assignment(Name, Placeholder), Assignment(Tag, Placeholder), Assignment(UpdatedAt, Literal("CURRENT_TIMESTAMP"))];
    params := [body.name, Or(body.tag, Str(""))];
    ghost var cols := [Name, Tag, UpdatedAt];
    fields, params, cols := AssignAffixes(Prefix in present, Suffix in present, fields, params,
                                          Or(body.prefix, Str("")), Or(body.suffix, Str("")), body, seen, cols);
    fields, params, cols := AssignColor(ChatColor in present, Color in present, fields, params,
                                        Or(body.chatColor, Str("cyan")), body, seen, cols);
    params := params + [Str(factionId)];
  }

  /** The UPDATE with `UpdatedAt` set only when the column exists, as the
      INSERT and SELECT builders treat it. */
  method BuildUpdate(present: set<Column>, body: UpdateBody, factionId: string)
    returns (fields: seq<Assignment>, params: seq<JsValue>)
    ensures fields == AssignmentsFor(Columns(UpdateOrder, present))
    ensures params == UpdateParams(body, Columns(UpdateOrder, present)) + [Str(factionId)]
  {
    UpdateStart(body, present);
    fields := [Assignment(Name, Placeholder), Assignment(Tag, Placeholder)];
    params := [body.name, Or(body.tag, Str(""))];
    ghost var cols := [Name, Tag];
    fields, cols := AssignTimestamp(UpdatedAt in present, fields, body, present, params, cols);
    fields, params, cols := AssignAffixes(Prefix in present, Suffix in present, fields, params,
                                          Or(body.prefix, Str("")), Or(body.suffix, Str("")), body, present, cols);
    fields, params, cols := AssignColor(ChatColor in present, Color in present, fields, params,
                                        Or(body.chatColor, Str("cyan")), body, present, cols);
    params := params + [Str(factionId)];
  }

  /** The statement as written names `UpdatedAt` always, so on a table without
      that column it names a missing column; the corrected statement names only
      existing columns; both agree whenever the column exists. Both start with
      `Name` and `Tag`, keep the order, and obey the colour rule. */
  lemma UpdateTimestampRule(present: set<Column>)
    ensures var written := Columns(UpdateOrder, present + {UpdatedAt});
      && UpdatedAt in written
      && (SchemaSafe(written, present) <==> UpdatedAt in present)
    ensures var fixed := Columns(UpdateOrder, present);
      && SchemaSafe(fixed, present)
      && (UpdatedAt in fixed <==> UpdatedAt in present)
      && (Prefix in fixed <==> Prefix in present)
      && (Suffix in fixed <==> Suffix in present)
      && ColorChoice(fixed, present)
      && InOrder(fixed, UpdateOrder)
      && |fixed| >= 2 && fixed[..2] == [Name, Tag]
    ensures UpdatedAt in present ==>
              Columns(UpdateOrder, present + {UpdatedAt}) == Columns(UpdateOrder, present)
  {
    ColumnsShape(UpdateOrder, present);
    ColumnsShape(UpdateOrder, present + {UpdatedAt});
    ColumnsSafe(UpdateOrder, present);
    if UpdatedAt in present {
      assert present + {UpdatedAt} == present;
    }
  }

  /** The statement UPDATE sends: one parameter per `?` of the SET list, then
      the faction's id for `WHERE Id = ?`, last (server.js:480-485). */
  lemma UpdateStatementBinds(present: set<Column>, body: UpdateBody, factionId: string)
    ensures var params := UpdateParams(body, Columns(UpdateOrder, present)) + [Str(factionId)];
            && SetPlaceholders(AssignmentsFor(Columns(UpdateOrder, present))) + 1 == |params|
            && params[|params| - 1] == Str(factionId)
  {
    UpdatePlaceholders(body, Columns(UpdateOrder, present));
  }

  /** The statement INSERT sends: one parameter per `?`, the counters fixed
      at `0` and `1` (server.js:365-399). */
  lemma InsertStatementBinds(present: set<Column>, body: CreateBody)
    ensures var cols := Columns(ListingOrder, present);
            var values := InsertExprs(cols);
            && PlaceholderCount(values) == |InsertParams(body, cols)|
            && |values| == |cols| >= 6
            && values[4] == Literal("0") && values[5] == Literal("1")
            && cols[4] == TotalPoints && cols[5] == Tier
  {
    var cols := Columns(ListingOrder, present);
    InsertPlaceholders(body, cols);
    ColumnsShape(ListingOrder, present);
    InsertExprsAll(cols);
    assert cols[4] == Mandatory[4] && cols[5] == Mandatory[5];
  }

  /** On a table without `UpdatedAt` the statement as written assigns it. */
  lemma UpdateAsWrittenNamesMissingColumn()
    ensures var written := Columns(UpdateOrder, {Prefix, Suffix, ChatColor} + {UpdatedAt});
      UpdatedAt in written && !SchemaSafe(written, {Prefix, Suffix, ChatColor})
  {
    UpdateTimestampRule({Prefix, Suffix, ChatColor});
  }
}
