/** Ranking of items by deadline and priority, and what makes an item eligible for a nudge. */
module Priorities {
  import opened Common

  datatype Ranked = Ranked(id: nat, priority: Option<int>, dueAt: Option<int>)

  /** A date before no date, then the earlier date. */
  predicate DueBefore(a: Option<int>, b: Option<int>) {
    a.Some? && (b.None? || a.value < b.value)
  }

  function PriorityOf(p: Option<int>): int {
    if p.Some? then p.value else 3
  }

  /** Nearest deadline first, items without one last, then priority, then id. */
  predicate RanksBefore(a: Ranked, b: Ranked) {
    if a.dueAt != b.dueAt then DueBefore(a.dueAt, b.dueAt)
    else if PriorityOf(a.priority) != PriorityOf(b.priority) then PriorityOf(a.priority) < PriorityOf(b.priority)
    else a.id < b.id
  }

  predicate Sorted(s: seq<Ranked>) {
    forall i, j :: 0 <= i < j < |s| ==> RanksBefore(s[i], s[j])
  }

  predicate DistinctIds(s: seq<Ranked>) {
    forall i, j :: 0 <= i < j < |s| ==> s[i].id != s[j].id
  }

  function Insert(s: seq<Ranked>, x: Ranked): seq<Ranked> {
    if s == [] || RanksBefore(x, s[0]) then [x] + s else [s[0]] + Insert(s[1..], x)
  }

  function Sort(s: seq<Ranked>): seq<Ranked> {
    if s == [] then [] else Insert(Sort(s[1..]), s[0])
  }

  function SelectTopPriorities(items: seq<Ranked>, maxCount: nat): seq<Ranked> {
    var sorted := Sort(items);
    if |sorted| <= maxCount then sorted else sorted[..maxCount]
  }

  lemma {:induction false} InsertContents(s: seq<Ranked>, x: Ranked)
    ensures multiset(Insert(s, x)) == multiset(s) + multiset{x}
  {
    if s != [] && !RanksBefore(x, s[0]) {
      InsertContents(s[1..], x);
      assert s == [s[0]] + s[1..];
    }
  }

  lemma RanksBeforeLater(s: seq<Ranked>, x: Ranked)
    requires Sorted(s) && (s == [] || RanksBefore(x, s[0]))
    ensures Sorted([x] + s)
  {
    forall k | 0 < k < |s| ensures RanksBefore(x, s[k]) {
      assert RanksBefore(s[0], s[k]);
    }
  }

  lemma {:induction false} InsertSorted(s: seq<Ranked>, x: Ranked)
    requires Sorted(s) && forall y <- s :: y.id != x.id
    ensures Sorted(Insert(s, x))
  {
    hide RanksBefore;
    if s == [] || RanksBefore(x, s[0]) {
      RanksBeforeLater(s, x);
    } else {
      var rest := Insert(s[1..], x);
      InsertSorted(s[1..], x);
      InsertContents(s[1..], x);
      RanksTotal(x, s[0]);
      forall k | 0 <= k < |rest| ensures RanksBefore(s[0], rest[k]) {
        assert rest[k] in multiset(rest);
        assert rest[k] == x || rest[k] in multiset(s[1..]);
      }
    }
  }

  lemma RanksTotal(a: Ranked, b: Ranked)
    requires a.id != b.id
    ensures RanksBefore(a, b) || RanksBefore(b, a)
  {
  }

  lemma {:induction false} SortSpec(s: seq<Ranked>)
    requires DistinctIds(s)
    ensures multiset(Sort(s)) == multiset(s) && Sorted(Sort(s))
  {
    hide Insert, RanksBefore;
    if s != [] {
      var rest := Sort(s[1..]);
      SortSpec(s[1..]);
      assert s == [s[0]] + s[1..];
      InsertContents(rest, s[0]);
      forall y <- rest ensures y.id != s[0].id {
        assert y in multiset(s[1..]);
        assert y in s[1..];
      }
      InsertSorted(rest, s[0]);
    }
  }

  /** Two sorted arrangements of the same items are the same sequence. */
  lemma {:induction false} SortedUnique(a: seq<Ranked>, b: seq<Ranked>)
    requires Sorted(a) && Sorted(b) && multiset(a) == multiset(b)
    ensures a == b
  {
    assert |multiset(a)| == |a| && |multiset(b)| == |b|;
    if a != [] {
      SameHead(a, b);
      assert a == [a[0]] + a[1..] && b == [b[0]] + b[1..];
      assert multiset(a[1..]) == multiset(a) - multiset{a[0]};
      assert multiset(b[1..]) == multiset(b) - multiset{b[0]};
      SortedUnique(a[1..], b[1..]);
    }
  }

  lemma SameHead(a: seq<Ranked>, b: seq<Ranked>)
    requires Sorted(a) && Sorted(b) && multiset(a) == multiset(b) && a != [] && b != []
    ensures a[0] == b[0]
  {
    assert a[0] in multiset(b) && b[0] in multiset(a);
    assert a[0] in b && b[0] in a;
  }

  /**
   * The selection is the head of the ranking: an item is left out only for items due
   * earlier, or for items of the same date, or without one as well, that have a
   * smaller priority number (3 for none), or the same and a smaller id.
   */
  lemma SelectionIsTop(items: seq<Ranked>, maxCount: nat)
    requires DistinctIds(items)
    ensures var chosen := SelectTopPriorities(items, maxCount);
      && |chosen| == (if |items| <= maxCount then |items| else maxCount)
      && Sorted(chosen) && (forall x <- chosen :: x in items)
      && forall x <- chosen, y <- items :: y in chosen
           || (x.dueAt.Some? && (y.dueAt.None? || x.dueAt.value < y.dueAt.value))
           || (x.dueAt == y.dueAt
               && var p := if x.priority.Some? then x.priority.value else 3;
                  var q := if y.priority.Some? then y.priority.value else 3;
                  p < q || (p == q && x.id < y.id))
  {
    hide RanksBefore, Sort, Sorted;
    var sorted, chosen := Sort(items), SelectTopPriorities(items, maxCount);
    SortSpec(items);
    SameContents(sorted, items);
    HeadSorted(sorted, |chosen|);
    forall x <- chosen, y <- items ensures y in chosen || RanksBefore(x, y) {
      assert y in sorted;
    }
    forall x <- chosen, y <- items {
      RankedDates(x, y);
    }
  }

  lemma SameContents(a: seq<Ranked>, b: seq<Ranked>)
    requires multiset(a) == multiset(b)
    ensures |a| == |b| && forall x :: x in a <==> x in b
  {
    assert |multiset(a)| == |a| && |multiset(b)| == |b|;
    forall x ensures x in a <==> x in b {
      assert x in a <==> x in multiset(a);
      assert x in b <==> x in multiset(b);
    }
  }

  lemma HeadSorted(s: seq<Ranked>, n: nat)
    requires Sorted(s) && n <= |s|
    ensures Sorted(s[..n])
    ensures forall x <- s[..n], y <- s :: y in s[..n] || RanksBefore(x, y)
  {
    hide RanksBefore;
    forall x <- s[..n], y <- s ensures y in s[..n] || RanksBefore(x, y) {
      var i, j :| 0 <= i < n && s[i] == x && 0 <= j < |s| && s[j] == y;
      if j < n { assert s[..n][j] == y; }
    }
  }

  lemma RankedDates(x: Ranked, y: Ranked)
    ensures RanksBefore(x, y) ==>
      || (x.dueAt.Some? && (y.dueAt.None? || x.dueAt.value < y.dueAt.value))
      || (x.dueAt == y.dueAt
          && var p := if x.priority.Some? then x.priority.value else 3;
             var q := if y.priority.Some? then y.priority.value else 3;
             p < q || (p == q && x.id < y.id))
  {
  }

  /** The selection depends only on which items are given, not on their order. */
  lemma SelectionIgnoresOrder(a: seq<Ranked>, b: seq<Ranked>, maxCount: nat)
    requires multiset(a) == multiset(b) && DistinctIds(a) && DistinctIds(b)
    ensures SelectTopPriorities(a, maxCount) == SelectTopPriorities(b, maxCount)
  {
    SortSpec(a);
    SortSpec(b);
    SortedUnique(Sort(a), Sort(b));
  }

  // ---- Nudge eligibility --------------------------------------------------

  datatype NudgeContext = NudgeContext(
    now: int, chargesSentToday: nat, dailyChargeCap: int, returnModeSuppressed: bool, itemIdsChargedToday: set<nat>,
    topPriorityIds: set<nat>)

  predicate IsNudgeEligible(item: Ranked, ctx: NudgeContext) {
    && !ctx.returnModeSuppressed && ctx.chargesSentToday < ctx.dailyChargeCap && item.id !in ctx.itemIdsChargedToday
    && ((item.dueAt.Some? && item.dueAt.value < ctx.now) || item.id in ctx.topPriorityIds)
  }

  function KeepEligible(items: seq<Ranked>, ctx: NudgeContext): (kept: seq<Ranked>)
    ensures forall x :: x in kept <==> x in items && IsNudgeEligible(x, ctx)
  {
    if items == [] then []
    else (if IsNudgeEligible(items[0], ctx) then [items[0]] else []) + KeepEligible(items[1..], ctx)
  }

  function SelectNudgeEligible(items: seq<Ranked>, ctx: NudgeContext): seq<Ranked> {
    var room := ctx.dailyChargeCap - ctx.chargesSentToday;
    var remainingCap := if room > 0 then room else 0;
    if remainingCap == 0 || ctx.returnModeSuppressed then []
    else
      var eligible := KeepEligible(items, ctx);
      if |eligible| <= remainingCap then eligible else eligible[..remainingCap]
  }

  lemma {:induction false} KeepDistinct(items: seq<Ranked>, ctx: NudgeContext)
    requires DistinctIds(items)
    ensures DistinctIds(KeepEligible(items, ctx))
  {
    if items != [] {
      KeepDistinct(items[1..], ctx);
      var rest := KeepEligible(items[1..], ctx);
      forall k | 0 <= k < |rest| ensures rest[k].id != items[0].id {
        assert rest[k] in items[1..];
      }
    }
  }

  lemma {:induction false} KeepConcat(a: seq<Ranked>, b: seq<Ranked>, ctx: NudgeContext)
    ensures KeepEligible(a + b, ctx) == KeepEligible(a, ctx) + KeepEligible(b, ctx)
  {
    hide IsNudgeEligible;
    if a == [] {
      assert a + b == b;
    } else {
      assert (a + b)[1..] == a[1..] + b;
      KeepConcat(a[1..], b, ctx);
    }
  }

  /** Overdue or among the top priorities, not charged today, and not in return mode. */
  predicate MayBeCharged(item: Ranked, ctx: NudgeContext) {
    && !ctx.returnModeSuppressed && item.id !in ctx.itemIdsChargedToday
    && ((item.dueAt.Some? && item.dueAt.value < ctx.now) || item.id in ctx.topPriorityIds)
  }

  /** Positions before `n` of items that may be charged. */
  function ChargeableBelow(items: seq<Ranked>, ctx: NudgeContext, n: nat): set<nat> {
    set k: nat | k < n && k < |items| && MayBeCharged(items[k], ctx)
  }

  lemma {:induction false} KeepSize(items: seq<Ranked>, ctx: NudgeContext, n: nat)
    requires n <= |items| && ctx.chargesSentToday < ctx.dailyChargeCap
    ensures |KeepEligible(items[..n], ctx)| == |ChargeableBelow(items, ctx, n)|
  {
    if n == 0 {
      assert ChargeableBelow(items, ctx, n) == {};
    } else {
      hide KeepEligible, ChargeableBelow, MayBeCharged, IsNudgeEligible;
      var last := items[n - 1];
      KeepSize(items, ctx, n - 1);
      KeepConcat(items[..n - 1], [last], ctx);
      assert items[..n] == items[..n - 1] + [last];
      KeepOne(last, ctx);
      ChargeableGrows(items, ctx, n);
    }
  }

  lemma KeepOne(item: Ranked, ctx: NudgeContext)
    requires ctx.chargesSentToday < ctx.dailyChargeCap
    ensures KeepEligible([item], ctx) == if MayBeCharged(item, ctx) then [item] else []
  {
    assert [item][1..] == [];
  }

  lemma ChargeableGrows(items: seq<Ranked>, ctx: NudgeContext, n: nat)
    requires 0 < n <= |items|
    ensures |ChargeableBelow(items, ctx, n)|
         == |ChargeableBelow(items, ctx, n - 1)| + if MayBeCharged(items[n - 1], ctx) then 1 else 0
  {
    hide MayBeCharged;
    var before := ChargeableBelow(items, ctx, n - 1);
    assert ChargeableBelow(items, ctx, n) == before + if MayBeCharged(items[n - 1], ctx) then {n - 1} else {};
  }

  /** An eligible item is kept at the place that counts the eligible ones listed before it. */
  lemma KeptAt(items: seq<Ranked>, ctx: NudgeContext, i: nat)
    requires i < |items| && ctx.chargesSentToday < ctx.dailyChargeCap && MayBeCharged(items[i], ctx)
    ensures var k := |ChargeableBelow(items, ctx, i)|;
      k < |KeepEligible(items, ctx)| && KeepEligible(items, ctx)[k] == items[i]
  {
    hide KeepEligible, ChargeableBelow;
    KeepSize(items, ctx, i);
    KeepConcat(items[..i], items[i..], ctx);
    assert items == items[..i] + items[i..];
    KeptHead(items[i..], ctx);
  }

  lemma KeptHead(items: seq<Ranked>, ctx: NudgeContext)
    requires items != [] && ctx.chargesSentToday < ctx.dailyChargeCap && MayBeCharged(items[0], ctx)
    ensures KeepEligible(items, ctx) != [] && KeepEligible(items, ctx)[0] == items[0]
  {
  }

  /**
   * The selection takes the items that may be charged in listing order, as many as
   * the day's cap leaves room for: each at the place that counts those before it.
   */
  lemma SelectionTakesFirst(items: seq<Ranked>, ctx: NudgeContext)
    ensures var chosen := SelectNudgeEligible(items, ctx);
      var room := ctx.dailyChargeCap - ctx.chargesSentToday;
      var all := |ChargeableBelow(items, ctx, |items|)|;
      && |chosen| == (if room <= 0 then 0 else if all <= room then all else room)
      && forall i :: 0 <= i < |items| && MayBeCharged(items[i], ctx) && |ChargeableBelow(items, ctx, i)| < room ==>
           && |ChargeableBelow(items, ctx, i)| < |chosen|
           && chosen[|ChargeableBelow(items, ctx, i)|] == items[i]
  {
    hide KeepEligible, ChargeableBelow;
    var room := ctx.dailyChargeCap - ctx.chargesSentToday;
    if room > 0 {
      KeepSize(items, ctx, |items|);
      assert items[..|items|] == items;
      if ctx.returnModeSuppressed {
        NoneChargeable(items, ctx, |items|);
      }
      forall i | 0 <= i < |items| && MayBeCharged(items[i], ctx)
        ensures var k := |ChargeableBelow(items, ctx, i)|;
          k < |KeepEligible(items, ctx)| && KeepEligible(items, ctx)[k] == items[i]
      {
        KeptAt(items, ctx, i);
      }
    }
  }

  lemma NoneChargeable(items: seq<Ranked>, ctx: NudgeContext, n: nat)
    requires ctx.returnModeSuppressed
    ensures ChargeableBelow(items, ctx, n) == {}
  {
  }

  /** What is selected fits the room left today, holds no item twice, and none charged today. */
  lemma SelectionFits(items: seq<Ranked>, ctx: NudgeContext)
    requires DistinctIds(items)
    ensures var chosen := SelectNudgeEligible(items, ctx);
      && (chosen != [] ==> ctx.chargesSentToday + |chosen| <= ctx.dailyChargeCap)
      && DistinctIds(chosen)
      && forall x <- chosen :: x in items && IsNudgeEligible(x, ctx)
  {
    KeepDistinct(items, ctx);
    var eligible := KeepEligible(items, ctx);
    forall x <- SelectNudgeEligible(items, ctx) ensures x in eligible {
    }
  }
}
