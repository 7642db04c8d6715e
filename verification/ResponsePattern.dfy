/** The owner's habitual response window and the reschedule proposal built from it. */
module ResponsePattern {
  import opened Common
  import opened ZonedTime
  import opened Recurrence

  datatype ResponseSample = ResponseSample(weekday: int, hour: int)

  datatype Tally = Tally(count: nat, lastIndex: int)

  predicate ValidSample(s: ResponseSample) {
    0 <= s.weekday < 7 && 0 <= s.hour < 24
  }

  // ---- Most frequent window ----------------------------------------------

  function TallyOf(samples: seq<ResponseSample>, s: ResponseSample): (t: Tally)
    ensures t.lastIndex < |samples|
    ensures s in samples <==> t.count > 0
    ensures s in samples ==> 0 <= t.lastIndex && samples[t.lastIndex] == s
    ensures forall i :: t.lastIndex < i < |samples| && i >= 0 ==> samples[i] != s
  {
    if samples == [] then Tally(0, -1)
    else
      var last := |samples| - 1;
      var before := TallyOf(samples[..last], s);
      if samples[last] == s then Tally(before.count + 1, last) else before
  }

  /** The count is the number of occurrences. */
  lemma {:induction false} TallyCounts(samples: seq<ResponseSample>, s: ResponseSample)
    ensures TallyOf(samples, s).count == multiset(samples)[s]
  {
    if samples != [] {
      var last := |samples| - 1;
      assert samples == samples[..last] + [samples[last]];
      TallyCounts(samples[..last], s);
    }
  }

  predicate Outranks(a: Tally, b: Tally) {
    a.count > b.count || (a.count == b.count && a.lastIndex > b.lastIndex)
  }

  /** `w` heads the ranking: most frequent, ties going to the greatest last index. */
  predicate Heads(samples: seq<ResponseSample>, w: ResponseSample) {
    && w in samples
    && forall s <- samples :: s == w || Outranks(TallyOf(samples, w), TallyOf(samples, s))
  }

  /** Head of the ranking among the first `n` samples. */
  function Leader(samples: seq<ResponseSample>, n: nat): ResponseSample
    requires 0 < n <= |samples|
  {
    if n == 1 then samples[0]
    else
      var w := Leader(samples, n - 1);
      var s := samples[n - 1];
      if Outranks(TallyOf(samples, s), TallyOf(samples, w)) then s else w
  }

  lemma {:induction false} LeaderOutranks(samples: seq<ResponseSample>, n: nat)
    requires 0 < n <= |samples|
    ensures Leader(samples, n) in samples
    ensures forall i :: 0 <= i < n ==>
      samples[i] == Leader(samples, n) || Outranks(TallyOf(samples, Leader(samples, n)), TallyOf(samples, samples[i]))
  {
    hide TallyOf;
    if n > 1 {
      var before, last := Leader(samples, n - 1), samples[n - 1];
      LeaderOutranks(samples, n - 1);
      if before != last {
        DistinctRanks(samples, before, last);
      }
      assert Leader(samples, n) == if Outranks(TallyOf(samples, last), TallyOf(samples, before)) then last else before;
    }
  }

  lemma DistinctRanks(samples: seq<ResponseSample>, a: ResponseSample, b: ResponseSample)
    requires a in samples && b in samples && a != b
    ensures Outranks(TallyOf(samples, a), TallyOf(samples, b)) || Outranks(TallyOf(samples, b), TallyOf(samples, a))
  {
  }

  function MostFrequentWindow(samples: seq<ResponseSample>): (w: Option<ResponseSample>)
    ensures w.None? <==> samples == []
    ensures w.Some? ==> Heads(samples, w.value)
  {
    if samples == [] then None
    else
      LeaderOutranks(samples, |samples|);
      Some(Leader(samples, |samples|))
  }

  ghost predicate Counted(samples: seq<ResponseSample>, counts: map<ResponseSample, Tally>) {
    && (forall s :: s in counts <==> s in samples)
    && (forall s :: s in counts ==> counts[s] == TallyOf(samples, s))
  }

  lemma CountOne(samples: seq<ResponseSample>, i: nat, counts: map<ResponseSample, Tally>)
    requires i < |samples| && Counted(samples[..i], counts)
    ensures Counted(samples[..i + 1],
                    counts[samples[i] := Tally(if samples[i] in counts then counts[samples[i]].count + 1 else 1, i)])
  {
    assert samples[..i + 1] == samples[..i] + [samples[i]];
    assert samples[..i + 1][..i] == samples[..i];
  }

  method SelectMostFrequentWindow(samples: seq<ResponseSample>) returns (w: Option<ResponseSample>)
    ensures w == MostFrequentWindow(samples)
  {
    if |samples| == 0 {
      return None;
    }
    var counts: map<ResponseSample, Tally> := map[];
    for i := 0 to |samples|
      invariant Counted(samples[..i], counts)
    {
      CountOne(samples, i, counts);
      if samples[i] in counts {
        counts := counts[samples[i] := Tally(counts[samples[i]].count + 1, i)];
      } else {
        counts := counts[samples[i] := Tally(1, i)];
      }
    }
    assert samples[..|samples|] == samples;
    LeaderOfCounts(samples, counts);
    // The first entry of the sorted counts: it outranks every other entry.
    var first :| first in counts && forall s <- counts :: s == first || Outranks(counts[first], counts[s]);
    w := Some(first);
  }

  lemma LeaderOfCounts(samples: seq<ResponseSample>, counts: map<ResponseSample, Tally>)
    requires samples != [] && Counted(samples, counts)
    ensures exists w :: w in counts && forall s <- counts :: s == w || Outranks(counts[w], counts[s])
    ensures forall w :: w in counts && (forall s <- counts :: s == w || Outranks(counts[w], counts[s]))
                    ==> w == MostFrequentWindow(samples).value
  {
    var top := MostFrequentWindow(samples).value;
    assert Heads(samples, top);
    assert top in counts && forall s <- counts :: s == top || Outranks(counts[top], counts[s]);
    forall w | w in counts && (forall s <- counts :: s == w || Outranks(counts[w], counts[s]))
      ensures w == top
    {
      assert top == w || Outranks(counts[w], counts[top]);
    }
  }

  // ---- Which sample wins a tie -------------------------------------------

  /** The samples the service ranks: the last `limit` recorded, newest first. */
  function RecentWindows(history: seq<ResponseSample>, limit: nat): seq<ResponseSample> {
    if history == [] || limit == 0 then []
    else [history[|history| - 1]] + RecentWindows(history[..|history| - 1], limit - 1)
  }

  predicate IsPeak(samples: seq<ResponseSample>, i: nat)
    requires i < |samples|
  {
    forall s <- samples :: TallyOf(samples, s).count <= TallyOf(samples, samples[i]).count
  }

  /** Of newest-first samples, the window chosen is that of the oldest sample whose window is a most frequent one. */
  lemma OldestPeakWins(samples: seq<ResponseSample>, i: nat)
    requires i < |samples| && IsPeak(samples, i)
    requires forall j :: i < j < |samples| ==> !IsPeak(samples, j)
    ensures MostFrequentWindow(samples) == Some(samples[i])
  {
    var w := MostFrequentWindow(samples).value;
    var last := TallyOf(samples, w).lastIndex;
    assert IsPeak(samples, last);
    assert last <= i <= TallyOf(samples, samples[i]).lastIndex;
  }

  /**
   * The documented tie rule is "the most recent sample among the tied": it is
   * kept exactly when the newest and the oldest peak name the same window.
   */
  lemma TieRuleIff(samples: seq<ResponseSample>, newest: nat, oldest: nat)
    requires newest < |samples| && IsPeak(samples, newest) && forall j :: 0 <= j < newest ==> !IsPeak(samples, j)
    requires oldest < |samples| && IsPeak(samples, oldest)
    requires forall j :: oldest < j < |samples| ==> !IsPeak(samples, j)
    ensures MostFrequentWindow(samples) == Some(samples[newest]) <==> samples[newest] == samples[oldest]
  {
    OldestPeakWins(samples, oldest);
  }

  /** What the service ranks: the last `limit` samples, or all of them if they are fewer, newest first. */
  lemma {:induction false} RecentAreNewest(history: seq<ResponseSample>, limit: nat)
    ensures var recent := RecentWindows(history, limit);
      && |recent| == (if |history| <= limit then |history| else limit)
      && forall k :: 0 <= k < |recent| ==> recent[k] == history[|history| - 1 - k]
  {
    if history != [] && limit > 0 {
      RecentAreNewest(history[..|history| - 1], limit - 1);
    }
  }

  /** The last ten response windows recorded, newest first. */
  function LastTen(history: seq<ResponseSample>): seq<ResponseSample> {
    seq(if |history| <= 10 then |history| else 10, k requires 0 <= k < |history| => history[|history| - 1 - k])
  }

  lemma LastTenAreRecent(history: seq<ResponseSample>)
    ensures LastTen(history) == RecentWindows(history, 10)
  {
    RecentAreNewest(history, 10);
  }

  /** Two responses in different windows: the older one decides the proposal. */
  lemma OlderOfTwoWins(older: ResponseSample, newer: ResponseSample)
    requires older != newer
    ensures MostFrequentWindow(RecentWindows([older, newer], 10)) == Some(older)
  {
    var history := [older, newer];
    var samples := RecentWindows(history, 10);
    assert history[..1] == [older] && [older][..0] == [];
    assert RecentWindows([older], 9) == [older] + RecentWindows([], 8);
    assert samples == [newer] + RecentWindows([older], 9);
    assert samples == [newer, older];
    assert samples[..1] == [newer];
    assert TallyOf([newer], newer).count == 1 && TallyOf([newer], older).count == 0;
    OldestPeakWins(samples, 1);
  }

  // ---- Proposal ----------------------------------------------------------

  function NextOccurrenceOf(weekday: int, hour: int, now: int): int {
    var nowParts := ToZonedParts(now);
    var nowWeekday := ZonedWeekday(now);
    var candidateToday := ZonedTimeToUtc(nowParts.(hour := hour, minute := 0, second := 0));
    var gap := TruncatedRem(weekday - nowWeekday + 7, 7);
    var diff := if gap == 0 && candidateToday <= now then 7 else gap;
    ZonedTimeToUtc(AddZonedDays(nowParts, diff).(hour := hour, minute := 0, second := 0))
  }

  function RescheduleProposal(samples: seq<ResponseSample>, fallbackHour: int, fallbackMinute: int, now: int): int {
    match MostFrequentWindow(samples)
    case Some(window) => NextOccurrenceOf(window.weekday, window.hour, now)
    case None =>
      ZonedTimeToUtc(AddZonedDays(ToZonedParts(now), 1).(hour := fallbackHour, minute := fallbackMinute, second := 0))
  }

  lemma OccurrenceValue(weekday: int, hour: int, now: int)
    requires 0 <= weekday < 7
    ensures var gap := (weekday - (LocalDay(now) + 4)) % 7;
            var today := DayStart(LocalDay(now)) + TimeOfDay(hour, 0, 0);
            var diff := if gap == 0 && today <= now then 7 else gap;
            NextOccurrenceOf(weekday, hour, now) == today + diff * MS_PER_DAY
  {
    hide ToZonedParts, ZonedTimeToUtc, AddZonedDays, ZonedWeekday, LocalDay;
    WeekdayOfLocalDay(now);
    SetTimeOfDay(now, hour, 0, 0);
    var gap := TruncatedRem(weekday - ZonedWeekday(now) + 7, 7);
    assert gap == (weekday - (LocalDay(now) + 4)) % 7;
    var diff := if gap == 0 && DayStart(LocalDay(now)) + TimeOfDay(hour, 0, 0) <= now then 7 else gap;
    ShiftedDayAt(now, diff, hour, 0);
  }

  /** On the local weekday `weekday`, at `hour:00:00`. */
  predicate FallsOn(t: int, weekday: int, hour: int) {
    ZonedWeekday(t) == weekday && ReadsAt(t, hour, 0)
  }

  /** The occurrence is the least instant strictly after `now` on that local weekday at that hour. */
  lemma OccurrenceIsNext(weekday: int, hour: int, now: int)
    requires 0 <= weekday < 7 && 0 <= hour < 24
    ensures NextOccurrenceOf(weekday, hour, now) > now
    ensures FallsOn(NextOccurrenceOf(weekday, hour, now), weekday, hour)
    ensures forall t :: now < t && FallsOn(t, weekday, hour) ==> NextOccurrenceOf(weekday, hour, now) <= t
  {
    hide NextOccurrenceOf, ReadsAt, ZonedWeekday;
    var r := NextOccurrenceOf(weekday, hour, now);
    OccurrenceValue(weekday, hour, now);
    assert r == DayStart(LocalDay(r)) + TimeOfDay(hour, 0, 0);
    ReadsAtIff(r, hour, 0);
    WeekdayOfLocalDay(r);
    forall t | now < t && FallsOn(t, weekday, hour)
      ensures r <= t
    {
      OccurrenceIsLeast(weekday, hour, now, t);
    }
  }

  lemma OccurrenceIsLeast(weekday: int, hour: int, now: int, t: int)
    requires 0 <= weekday < 7 && 0 <= hour < 24 && now < t && FallsOn(t, weekday, hour)
    ensures NextOccurrenceOf(weekday, hour, now) <= t
  {
    hide NextOccurrenceOf, ReadsAt, ZonedWeekday, LocalDay;
    OccurrenceValue(weekday, hour, now);
    ReadsAtIff(t, hour, 0);
    WeekdayOfLocalDay(t);
    assert LocalDay(now) <= LocalDay(t) by { DaysFollowTime(now, t); }
    NoEarlierDay(LocalDay(now), LocalDay(t), weekday);
  }

  lemma DaysFollowTime(a: int, b: int)
    requires a <= b
    ensures LocalDay(a) <= LocalDay(b)
  {
  }

  /** A later day on `weekday` is at least the weekday gap away. */
  lemma NoEarlierDay(from: int, to: int, weekday: int)
    requires from <= to && (to + 4) % 7 == weekday
    ensures var gap := (weekday - (from + 4)) % 7;
            to >= from + gap && (gap == 0 && to > from ==> to >= from + 7)
  {
    assert (to - from) % 7 == (weekday - (from + 4)) % 7;
  }

  /** `w` occurs more often than every other window, or as often and last at a greater position. */
  predicate IsHabit(samples: seq<ResponseSample>, w: ResponseSample) {
    exists k :: 0 <= k < |samples| && samples[k] == w
      && forall i :: 0 <= i < |samples| && samples[i] != w ==>
           || multiset(samples)[samples[i]] < multiset(samples)[w]
           || (multiset(samples)[samples[i]] == multiset(samples)[w] && i < k)
  }

  /**
   * What a rescheduled charge is moved to: the least later instant in the habitual
   * window, at its weekday and hour, or with no samples the fallback time of the next
   * local day.
   */
  ghost predicate ProposedFor(
      samples: seq<ResponseSample>, fallbackHour: int, fallbackMinute: int, now: int, at: int) {
    if samples == [] then
      at == DayStart(LocalDay(now) + 1) + fallbackHour * 3_600_000 + fallbackMinute * 60_000
    else
      exists w :: IsHabit(samples, w) && IsNextAt(w, now, at)
  }

  ghost predicate IsNextAt(w: ResponseSample, now: int, at: int) {
    && now < at && FallsOn(at, w.weekday, w.hour)
    && forall t :: now < t && FallsOn(t, w.weekday, w.hour) ==> at <= t
  }

  lemma HeadIsHabit(samples: seq<ResponseSample>, w: ResponseSample)
    requires Heads(samples, w)
    ensures IsHabit(samples, w)
  {
    hide TallyOf;
    var k := TallyOf(samples, w).lastIndex;
    TallyCounts(samples, w);
    assert samples[k] == w;
    forall i | 0 <= i < |samples| && samples[i] != w
      ensures || multiset(samples)[samples[i]] < multiset(samples)[w]
              || (multiset(samples)[samples[i]] == multiset(samples)[w] && i < k)
    {
      TallyCounts(samples, samples[i]);
      assert samples[i] in samples && Outranks(TallyOf(samples, w), TallyOf(samples, samples[i]));
      assert i <= TallyOf(samples, samples[i]).lastIndex;
    }
  }

  /** Only one window is the habit. */
  lemma HabitIsUnique(samples: seq<ResponseSample>, a: ResponseSample, b: ResponseSample)
    requires IsHabit(samples, a) && IsHabit(samples, b)
    ensures a == b
  {
    var j :| 0 <= j < |samples| && samples[j] == a
      && forall i :: 0 <= i < |samples| && samples[i] != a ==>
           || multiset(samples)[samples[i]] < multiset(samples)[a]
           || (multiset(samples)[samples[i]] == multiset(samples)[a] && i < j);
    var k :| 0 <= k < |samples| && samples[k] == b
      && forall i :: 0 <= i < |samples| && samples[i] != b ==>
           || multiset(samples)[samples[i]] < multiset(samples)[b]
           || (multiset(samples)[samples[i]] == multiset(samples)[b] && i < k);
  }

  /** The proposal follows the habit of the samples, and falls back only without any. */
  lemma ProposalFollowsHabit(samples: seq<ResponseSample>, fallbackHour: int, fallbackMinute: int, now: int)
    requires forall s <- samples :: ValidSample(s)
    ensures ProposedFor(samples, fallbackHour, fallbackMinute, now,
                        RescheduleProposal(samples, fallbackHour, fallbackMinute, now))
  {
    hide NextOccurrenceOf, ToZonedParts, ZonedTimeToUtc, AddZonedDays, IsHabit, FallsOn;
    if samples == [] {
      ShiftedDayAt(now, 1, fallbackHour, fallbackMinute);
    } else {
      var w := MostFrequentWindow(samples).value;
      HeadIsHabit(samples, w);
      OccurrenceIsNext(w.weekday, w.hour, now);
      assert IsNextAt(w, now, RescheduleProposal(samples, fallbackHour, fallbackMinute, now));
    }
  }

  /** Both branches of the proposal are strictly in the future. */
  lemma ProposalIsFuture(samples: seq<ResponseSample>, fallbackHour: int, fallbackMinute: int, now: int)
    requires forall s <- samples :: ValidSample(s)
    requires fallbackHour >= 0 && fallbackMinute >= 0
    ensures RescheduleProposal(samples, fallbackHour, fallbackMinute, now) > now
  {
    hide NextOccurrenceOf, ToZonedParts, ZonedTimeToUtc, AddZonedDays;
    match MostFrequentWindow(samples)
    case Some(window) => OccurrenceIsNext(window.weekday, window.hour, now);
    case None =>
      ShiftedDayAt(now, 1, fallbackHour, fallbackMinute);
      StartOfDayBounds(now);
  }
}
