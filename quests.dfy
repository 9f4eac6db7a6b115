/** Quest completions: the per-tier tally GET /api/factions/:id/quests answers
    with, and the faction view's quest panel (five tier cells, totals and the
    floored averages it shows). */
module Quests {
  import opened JsValues

  // ---------------------------------------------------------------------------
  // Server-side tally

  /** A completion row: its `QuestTier` and `PointsEarned` columns, integers
      or SQL `NULL`. */
  datatype Completion = Completion(questTier: Option<int>, pointsEarned: Option<int>)

  /** `completion.QuestTier || 1`: a missing or zero tier counts as tier 1. */
  function TierOf(c: Completion): (t: int)
    ensures c.questTier.None? ==> t == 1
    ensures c.questTier.Some? && c.questTier.value != 0 ==> t == c.questTier.value
    ensures c.questTier == Some(0) ==> t == 1
    ensures t != 0
  {
    match c.questTier
    case None => 1
    case Some(n) => if n != 0 then n else 1
  }

  /** `completion.PointsEarned || 0`. */
  function PointsOf(c: Completion): int {
    c.pointsEarned.GetOr(0)
  }

  /** How many completions fall in tier `t`. */
  function TierCount(cs: seq<Completion>, t: int): nat {
    if cs == [] then 0
    else TierCount(cs[..|cs| - 1], t) + (if TierOf(cs[|cs| - 1]) == t then 1 else 0)
  }

  /** The tiers that occur. */
  function TiersOf(cs: seq<Completion>): set<int> {
    if cs == [] then {} else TiersOf(cs[..|cs| - 1]) + {TierOf(cs[|cs| - 1])}
  }

  /** The points earned over all completions. */
  function PointsSum(cs: seq<Completion>): int {
    if cs == [] then 0 else PointsSum(cs[..|cs| - 1]) + PointsOf(cs[|cs| - 1])
  }

  /** The `stats` object of server.js:1052-1056. */
  datatype QuestStats = QuestStats(total: nat, byTier: map<int, nat>, totalPoints: int)

  lemma TiersOfSnoc(cs: seq<Completion>, c: Completion)
    ensures TiersOf(cs + [c]) == TiersOf(cs) + {TierOf(c)}
  {
    assert (cs + [c])[..|cs|] == cs;
  }

  /** The tiers are exactly those of the completions. */
  lemma {:induction false} TiersOfOccur(cs: seq<Completion>)
    ensures forall c :: c in cs ==> TierOf(c) in TiersOf(cs)
    ensures forall t :: t in TiersOf(cs) ==> exists c :: c in cs && TierOf(c) == t
    decreases |cs|
  {
    if cs != [] {
      var init, c := cs[..|cs| - 1], cs[|cs| - 1];
      assert cs == init + [c];
      TiersOfOccur(init);
      forall t | t in TiersOf(cs)
        ensures exists x :: x in cs && TierOf(x) == t
      {
        if t == TierOf(c) {
          assert c in cs;
        } else {
          var x :| x in init && TierOf(x) == t;
          assert x in cs;
        }
      }
    }
  }

  /** One more completion counts once, under its own tier, and adds its points. */
  lemma TierCountSnoc(cs: seq<Completion>, c: Completion)
    ensures forall t :: TierCount(cs + [c], t) == TierCount(cs, t) + (if TierOf(c) == t then 1 else 0)
    ensures PointsSum(cs + [c]) == PointsSum(cs) + PointsOf(c)
  {
    assert (cs + [c])[..|cs|] == cs;
  }

  /** A tier has a positive count exactly when it occurs. */
  lemma {:induction false} TierCountPositive(cs: seq<Completion>, t: int)
    ensures TierCount(cs, t) > 0 <==> t in TiersOf(cs)
    decreases |cs|
  {
    if cs != [] {
      var init, c := cs[..|cs| - 1], cs[|cs| - 1];
      assert cs == init + [c];
      TierCountPositive(init, t);
      TiersOfSnoc(init, c);
    }
  }

  /** `byTier` holds, for each tier that occurs in `seen`, its positive count,
      and nothing else. */
  predicate Tallied(byTier: map<int, nat>, seen: seq<Completion>) {
    && byTier.Keys == TiersOf(seen)
    && forall t :: t in byTier ==> byTier[t] == TierCount(seen, t) > 0
  }

  /** Counting one more completion the way the loop does keeps the tally. */
  lemma TallyStep(byTier: map<int, nat>, seen: seq<Completion>, c: Completion)
    requires Tallied(byTier, seen)
    ensures var t := TierOf(c);
            var started := if t !in byTier || byTier[t] == 0 then byTier[t := 0] else byTier;
            t in started && Tallied(started[t := started[t] + 1], seen + [c])
  {
    var t := TierOf(c);
    TierCountPositive(seen, t);
    TierCountSnoc(seen, c);
    TiersOfSnoc(seen, c);
  }

  /** The tally of server.js:1052-1065: the `completions.forEach` counts each
      completion under its tier and adds its points. */
  method Tally(cs: seq<Completion>) returns (stats: QuestStats)
    ensures stats.total == |cs|
    ensures stats.byTier.Keys == TiersOf(cs)
    ensures forall t :: t in stats.byTier ==> stats.byTier[t] == TierCount(cs, t) > 0
    ensures stats.totalPoints == PointsSum(cs)
  {
    var byTier: map<int, nat> := map[];
    var totalPoints := 0;
    var i := 0;
    while i < |cs|
      invariant 0 <= i <= |cs|
      invariant Tallied(byTier, cs[..i])
      invariant totalPoints == PointsSum(cs[..i])
    {
      var tier := TierOf(cs[i]);
      assert cs[..i + 1] == cs[..i] + [cs[i]];
      TallyStep(byTier, cs[..i], cs[i]);
      TierCountSnoc(cs[..i], cs[i]);
      if tier !in byTier || byTier[tier] == 0 {
        byTier := byTier[tier := 0];
      }
      byTier := byTier[tier := byTier[tier] + 1];
      totalPoints := totalPoints + PointsOf(cs[i]);
      i := i + 1;
    }
    assert cs[..i] == cs;
    stats := QuestStats(|cs|, byTier, totalPoints);
  }

  /** No tier is listed twice. */
  predicate Distinct(tiers: seq<int>) {
    forall i, j :: 0 <= i < j < |tiers| ==> tiers[i] != tiers[j]
  }

  /** The counts of the listed tiers, added up. */
  function SumCounts(cs: seq<Completion>, tiers: seq<int>): nat {
    if tiers == [] then 0 else SumCounts(cs, tiers[..|tiers| - 1]) + TierCount(cs, tiers[|tiers| - 1])
  }

  /** How often `t` is listed. */
  function Occurrences(tiers: seq<int>, t: int): nat {
    if tiers == [] then 0 else Occurrences(tiers[..|tiers| - 1], t) + (if tiers[|tiers| - 1] == t then 1 else 0)
  }

  /** The per-tier counts add up to the number of completions: listing each
      tier that occurs once, their counts sum to `stats.total`. */
  lemma {:induction false} TierCountsSumToTotal(cs: seq<Completion>, tiers: seq<int>)
    requires Distinct(tiers)
    requires forall c :: c in cs ==> TierOf(c) in tiers
    ensures SumCounts(cs, tiers) == |cs|
    decreases |cs|
  {
    if cs == [] {
      SumCountsEmpty(tiers);
    } else {
      var init, c := cs[..|cs| - 1], cs[|cs| - 1];
      assert cs == init + [c];
      TierCountsSumToTotal(init, tiers);
      SumCountsSnoc(init, c, tiers);
      OccursOnce(tiers, TierOf(c));
    }
  }

  lemma {:induction false} SumCountsEmpty(tiers: seq<int>)
    ensures SumCounts([], tiers) == 0
    decreases |tiers|
  {
    if tiers != [] {
      SumCountsEmpty(tiers[..|tiers| - 1]);
    }
  }

  /** One more completion adds one to its tier's count, once per listing. */
  lemma {:induction false} SumCountsSnoc(cs: seq<Completion>, c: Completion, tiers: seq<int>)
    ensures SumCounts(cs + [c], tiers) == SumCounts(cs, tiers) + Occurrences(tiers, TierOf(c))
    decreases |tiers|
  {
    assert (cs + [c])[..|cs|] == cs;
    if tiers != [] {
      SumCountsSnoc(cs, c, tiers[..|tiers| - 1]);
    }
  }

  lemma {:induction false} OccursOnce(tiers: seq<int>, t: int)
    requires Distinct(tiers) && t in tiers
    ensures Occurrences(tiers, t) == 1
    decreases |tiers|
  {
    var init := tiers[..|tiers| - 1];
    if tiers[|tiers| - 1] == t {
      OccursNever(init, t);
    } else {
      assert t in init by {
        var k :| 0 <= k < |tiers| && tiers[k] == t;
        assert init[k] == t;
      }
      OccursOnce(init, t);
    }
  }

  lemma {:induction false} OccursNever(tiers: seq<int>, t: int)
    requires t !in tiers
    ensures Occurrences(tiers, t) == 0
    decreases |tiers|
  {
    if tiers != [] {
      OccursNever(tiers[..|tiers| - 1], t);
    }
  }

  // ---------------------------------------------------------------------------
  // The quest panel of the faction view

  /** `Math.floor(total / n)` when `n > 0`, else 0 (public/app.js:649,
      public/app.js:1311). */
  function AverageFloor(total: int, n: int): (r: int)
    ensures n > 0 ==> r * n <= total < (r + 1) * n
    ensures n <= 0 ==> r == 0
  {
    if n > 0 then total / n else 0
  }

  /** One tier as GET /api/factions/:id/quests/stats reports it. */
  datatype TierData = TierData(count: int, points: int)

  /** One cell of the panel's tier row: its label, the count shown, and the
      points shown under it (only when positive). */
  datatype TierCell = TierCell(tier: int, title: string, count: int, points: Option<int>)

  /** `tierNames` (public/app.js:1267-1273). */
  function TierName(t: int): string {
    match t
    case 1 => "Tier I"
    case 2 => "Tier II"
    case 3 => "Tier III"
    case 4 => "Tier IV"
    case 5 => "Tier V"
    case _ => "Tier ?"
  }

  /** The data a tier is shown with: `stats.byTier[tier] || { count: 0, points: 0 }`. */
  function TierShown(byTier: map<int, TierData>, t: int): TierData {
    if t in byTier then byTier[t] else TierData(0, 0)
  }

  /** The cell for tier `t`. */
  function Cell(byTier: map<int, TierData>, t: int): (c: TierCell)
    ensures c.tier == t && c.title == TierName(t)
    ensures t !in byTier ==> c.count == 0 && c.points.None?
    ensures c.points.Some? ==> c.points.value > 0
    ensures t in byTier ==>
              && c.count == byTier[t].count
              && (c.points.Some? <==> byTier[t].points > 0)
              && (c.points.Some? ==> c.points.value == byTier[t].points)
  {
    var d := TierShown(byTier, t);
    TierCell(t, TierName(t), d.count, if d.points > 0 then Some(d.points) else None)
  }

  /** The `for (let tier = 1; tier <= 5; tier++)` loop of
      public/app.js:1283-1295: exactly tiers 1 to 5, in order, whatever
      tiers the stats list. */
  method TierCells(byTier: map<int, TierData>) returns (cells: seq<TierCell>)
    ensures |cells| == 5
    ensures forall i :: 0 <= i < 5 ==> cells[i] == Cell(byTier, i + 1)
    ensures forall i :: 0 <= i < 5 ==> cells[i].tier == i + 1
  {
    cells := [];
    var tier := 1;
    while tier <= 5
      invariant 1 <= tier <= 6 && |cells| == tier - 1
      invariant forall i :: 0 <= i < |cells| ==> cells[i] == Cell(byTier, i + 1)
    {
      cells := cells + [Cell(byTier, tier)];
      tier := tier + 1;
    }
  }

  /** The quest panel: a note when nothing is recorded, otherwise the totals,
      the floored average and the tier cells (public/app.js:1253-1322). */
  datatype QuestPanel =
    | NothingRecorded
    | Panel(total: int, totalPoints: int, average: int, cells: seq<TierCell>)

  /** The stats object the panel is given. */
  datatype PanelStats = PanelStats(total: int, totalPoints: int, byTier: map<int, TierData>)

  method QuestPanelFor(stats: Option<PanelStats>) returns (p: QuestPanel)
    ensures stats.None? || stats.value.total == 0 ==> p == NothingRecorded
    ensures stats.Some? && stats.value.total != 0 ==>
              && p.Panel? && p.total == stats.value.total && p.totalPoints == stats.value.totalPoints
              && p.average == AverageFloor(stats.value.totalPoints, stats.value.total)
              && |p.cells| == 5
              && forall i :: 0 <= i < 5 ==> p.cells[i] == Cell(stats.value.byTier, i + 1)
  {
    if stats.None? || stats.value.total == 0 {
      return NothingRecorded;
    }
    var s := stats.value;
    var cells := TierCells(s.byTier);
    p := Panel(s.total, s.totalPoints, AverageFloor(s.totalPoints, s.total), cells);
  }
}
