/** The cache-regression alarm: a streak of cold calls close together in time. */
module CostMonitor {
  datatype UsageRow = UsageRow(intent: string, cacheReadTokens: nat, createdAt: int)

  const HAIKU_INTENT := "triagem"

  /** The calls routed to Sonnet, in order. */
  function SonnetCalls(rows: seq<UsageRow>): seq<UsageRow> {
    if rows == [] then []
    else
      var last := rows[|rows| - 1];
      SonnetCalls(rows[..|rows| - 1]) + if last.intent == HAIKU_INTENT then [] else [last]
  }

  /** They are the rows of any other intent than triage, each once and in order. */
  lemma {:induction false} SonnetCallsAre(rows: seq<UsageRow>) returns (at: seq<nat>)
    ensures |at| == |SonnetCalls(rows)|
    ensures forall k :: 0 <= k < |at| ==> at[k] < |rows| && SonnetCalls(rows)[k] == rows[at[k]]
    ensures forall j, k :: 0 <= j < k < |at| ==> at[j] < at[k]
    ensures forall i: nat :: i in at <==> i < |rows| && rows[i].intent != "triagem"
  {
    if rows == [] {
      at := [];
    } else {
      var last := |rows| - 1;
      var before := SonnetCallsAre(rows[..last]);
      SonnetCallsStep(rows);
      hide SonnetCalls;
      var more := if rows[last].intent == "triagem" then [] else [last];
      at := before + more;
      forall k | 0 <= k < |at|
        ensures at[k] < |rows| && SonnetCalls(rows)[k] == rows[at[k]]
        ensures k < |before| ==> at[k] == before[k] < last
      {
        if k < |before| { assert rows[..last][before[k]] == rows[before[k]]; }
      }
      forall i: nat ensures i in at <==> i < |rows| && rows[i].intent != "triagem" {
        assert i in at <==> i in before || i in more;
        if i < last { assert rows[..last][i] == rows[i]; }
      }
    }
  }

  lemma SonnetCallsStep(rows: seq<UsageRow>)
    requires rows != []
    ensures var last := rows[|rows| - 1];
      SonnetCalls(rows) == SonnetCalls(rows[..|rows| - 1]) + if last.intent == "triagem" then [] else [last]
  {
  }

  /** `n` consecutive calls from `start`, all without cache reads and each close enough to the one before. */
  predicate ColdWindow(calls: seq<UsageRow>, start: int, n: int, maxGapMs: int) {
    && 0 <= start && 0 <= n && start + n <= |calls|
    && (forall k :: start <= k < start + n ==> calls[k].cacheReadTokens == 0)
    && (forall k :: start < k < start + n ==> calls[k].createdAt - calls[k - 1].createdAt <= maxGapMs)
  }

  ghost predicate HasColdWindow(calls: seq<UsageRow>, n: int, maxGapMs: int) {
    exists start :: ColdWindow(calls, start, n, maxGapMs)
  }

  /** Length of the streak that ends at the last call. */
  function Streak(calls: seq<UsageRow>, maxGapMs: int): nat {
    if calls == [] || calls[|calls| - 1].cacheReadTokens != 0 then 0
    else if |calls| > 1 && calls[|calls| - 1].createdAt - calls[|calls| - 2].createdAt > maxGapMs then 1
    else 1 + Streak(calls[..|calls| - 1], maxGapMs)
  }

  lemma {:induction false} StreakIsWindow(calls: seq<UsageRow>, n: nat, maxGapMs: int)
    requires n >= 1
    ensures Streak(calls, maxGapMs) >= n <==> ColdWindow(calls, |calls| - n, n, maxGapMs)
  {
    hide ColdWindow;
    if n <= |calls| {
      var before := calls[..|calls| - 1];
      WindowSplits(calls, n, maxGapMs);
      if n > 1 {
        StreakIsWindow(before, n - 1, maxGapMs);
        WindowInPrefix(before, calls, |calls| - n, n - 1, maxGapMs);
      }
    } else {
      StreakFits(calls, maxGapMs);
      if ColdWindow(calls, |calls| - n, n, maxGapMs) { WindowFits(calls, |calls| - n, n, maxGapMs); }
    }
  }

  lemma {:induction false} StreakFits(calls: seq<UsageRow>, maxGapMs: int)
    ensures Streak(calls, maxGapMs) <= |calls|
  {
    if calls != [] {
      StreakFits(calls[..|calls| - 1], maxGapMs);
    }
  }

  /** The window of the last `n` calls is that of the `n - 1` before the last, and the last close to them. */
  lemma WindowSplits(calls: seq<UsageRow>, n: nat, maxGapMs: int)
    requires 1 <= n <= |calls|
    ensures var last := |calls| - 1;
      ColdWindow(calls, |calls| - n, n, maxGapMs)
      <==> && calls[last].cacheReadTokens == 0
           && (n > 1 ==> calls[last].createdAt - calls[last - 1].createdAt <= maxGapMs
                         && ColdWindow(calls, |calls| - n, n - 1, maxGapMs))
  {
    var start, last := |calls| - n, |calls| - 1;
    assert start + n == last + 1 && start + (n - 1) == last;
  }

  lemma WindowInPrefix(calls: seq<UsageRow>, more: seq<UsageRow>, start: int, n: int, maxGapMs: int)
    requires calls <= more && 0 <= start && start + n <= |calls|
    ensures ColdWindow(calls, start, n, maxGapMs) <==> ColdWindow(more, start, n, maxGapMs)
  {
    assert forall k :: 0 <= k < |calls| ==> calls[k] == more[k];
  }

  lemma WindowFits(calls: seq<UsageRow>, start: int, n: int, maxGapMs: int)
    requires ColdWindow(calls, start, n, maxGapMs)
    ensures 0 <= start && start + n <= |calls|
  {
  }

  lemma StreakStep(calls: seq<UsageRow>, call: UsageRow, maxGapMs: int)
    ensures Streak(calls + [call], maxGapMs)
         == if call.cacheReadTokens != 0 then 0
            else if calls != [] && call.createdAt - calls[|calls| - 1].createdAt > maxGapMs then 1
            else 1 + Streak(calls, maxGapMs)
  {
    assert (calls + [call])[..|calls|] == calls;
  }

  lemma WindowGrows(calls: seq<UsageRow>, call: UsageRow, n: nat, maxGapMs: int)
    requires n >= 1
    ensures HasColdWindow(calls + [call], n, maxGapMs)
       <==> HasColdWindow(calls, n, maxGapMs) || Streak(calls + [call], maxGapMs) >= n
  {
    var more := calls + [call];
    hide ColdWindow;
    StreakIsWindow(more, n, maxGapMs);
    if HasColdWindow(calls, n, maxGapMs) {
      var start :| ColdWindow(calls, start, n, maxGapMs);
      WindowFits(calls, start, n, maxGapMs);
      WindowInPrefix(calls, more, start, n, maxGapMs);
    }
    if HasColdWindow(more, n, maxGapMs) {
      var start :| ColdWindow(more, start, n, maxGapMs);
      WindowFits(more, start, n, maxGapMs);
      if start + n <= |calls| {
        WindowInPrefix(calls, more, start, n, maxGapMs);
      }
    }
  }

  lemma NoCallsNoWindow(n: nat, maxGapMs: int)
    requires n >= 1
    ensures !HasColdWindow([], n, maxGapMs) && Streak([], maxGapMs) == 0
  {
  }

  /**
   * True exactly when the Sonnet calls hold a cold window of the threshold's
   * length; a threshold below one acts as one.
   */
  method DetectCacheRegression(rows: seq<UsageRow>, threshold: int, maxGapMs: int) returns (regressed: bool)
    ensures regressed <==> HasColdWindow(SonnetCalls(rows), if threshold >= 1 then threshold else 1, maxGapMs)
  {
    hide HasColdWindow, Streak;
    ghost var needed: nat := if threshold >= 1 then threshold else 1;
    var consecutive := 0;
    var seen := false;
    var previousCreatedAt := 0;
    ghost var calls: seq<UsageRow> := [];
    NoCallsNoWindow(needed, maxGapMs);
    for i := 0 to |rows|
      invariant calls == SonnetCalls(rows[..i]) && seen == (calls != [])
      invariant seen ==> previousCreatedAt == calls[|calls| - 1].createdAt
      invariant consecutive == Streak(calls, maxGapMs)
      invariant !HasColdWindow(calls, needed, maxGapMs)
    {
      assert rows[..i + 1][..i] == rows[..i];
      if rows[i].intent == HAIKU_INTENT {
        continue;
      }
      WindowGrows(calls, rows[i], needed, maxGapMs);
      StreakStep(calls, rows[i], maxGapMs);
      if seen && rows[i].createdAt - previousCreatedAt > maxGapMs {
        consecutive := 0;
      }
      seen, previousCreatedAt := true, rows[i].createdAt;
      if rows[i].cacheReadTokens == 0 {
        consecutive := consecutive + 1;
        if consecutive >= threshold {
          WindowPersists(rows, i + 1, needed, maxGapMs);
          return true;
        }
      } else {
        consecutive := 0;
      }
      calls := calls + [rows[i]];
    }
    assert rows[..|rows|] == rows;
    return false;
  }

  lemma {:induction false} WindowPersists(rows: seq<UsageRow>, i: nat, n: nat, maxGapMs: int)
    requires n >= 1 && i <= |rows| && HasColdWindow(SonnetCalls(rows[..i]), n, maxGapMs)
    ensures HasColdWindow(SonnetCalls(rows), n, maxGapMs)
    decreases |rows| - i
  {
    hide HasColdWindow;
    if i == |rows| {
      assert rows[..i] == rows;
    } else {
      assert rows[..i + 1][..i] == rows[..i];
      var calls := SonnetCalls(rows[..i]);
      if rows[i].intent == HAIKU_INTENT {
        assert SonnetCalls(rows[..i + 1]) == calls;
      } else {
        WindowGrows(calls, rows[i], n, maxGapMs);
      }
      WindowPersists(rows, i + 1, n, maxGapMs);
    }
  }
}
