/** The cognitive journal page (src/pages/CognitiveJournal.jsx): journal entries
    in the `cognitiveEntries` table, the tag and symptom selections of the entry
    being written, the health statistics (points, level, day streak, symptom
    total) and the tag/symptom counts of the analysis view. */
module CognitiveJournal {
  import opened Wrappers
  import opened Lists
  import opened Text
  import opened Ordering
  import opened Records
  import opened Dates

  /** An instant: its `toISOString()` text and the local calendar date it falls on. */
  datatype Timestamp = Timestamp(iso: string, local: CalendarDate)

  /** The subject–verb–object fields of a structured entry. */
  datatype Structured = Structured(subject: string, verbType: string, verb: string, obj: string, context: string)

  /** A stored entry. Entries written elsewhere may lack `tags` or `symptoms` (`None`). */
  datatype Entry = Entry(
    content: string,
    tags: Option<seq<string>>,
    symptoms: Option<seq<string>>,
    intensity: int,
    bodyParts: seq<string>,
    timestamp: Timestamp,
    structured: Structured)

  /** The entry being written (`newEntry`): text, chosen tags and structured fields. */
  datatype Draft = Draft(content: string, tags: seq<string>, structured: Structured)

  const EmptyStructured := Structured("", "", "", "", "")
  const EmptyDraft := Draft("", [], EmptyStructured)

  datatype HealthStats = HealthStats(healthPoints: int, healthLevel: int, dayStreak: nat, totalSymptoms: nat)

  /* ---------- day streak ---------- */

  function Abs(x: int): nat {
    if x < 0 then -x else x
  }

  /** How many times, walking back from the last day, the previous day is exactly
      one day away, stopping at the first larger gap. */
  function RunBack(days: seq<int>): (n: nat)
    ensures |days| > 0 ==> n < |days|
  {
    if |days| < 2 then 0
    else if Abs(days[|days| - 1] - days[|days| - 2]) == 1 then 1 + RunBack(days[..|days| - 1])
    else 0
  }

  /** The streak over distinct days in ascending order: 0 unless the latest is today,
      else the latest day plus the run of one-day steps before it. */
  function Streak(sortedDays: seq<int>, today: int): (n: nat)
    ensures n <= |sortedDays|
    ensures n > 0 <==> |sortedDays| > 0 && sortedDays[|sortedDays| - 1] == today
  {
    if |sortedDays| == 0 || sortedDays[|sortedDays| - 1] != today then 0
    else 1 + RunBack(sortedDays)
  }

  predicate StrictlyIncreasing(s: seq<int>) {
    forall i, j :: 0 <= i < j < |s| ==> s[i] < s[j]
  }

  /** The distinct days, oldest first. */
  function UniqueDays(days: seq<int>): (r: seq<int>)
    ensures StrictlyIncreasing(r)
    ensures forall d :: d in r <==> d in days
    ensures |r| <= |days|
  {
    IntLeIsPreorder();
    var d := Distinct(days);
    var r := Sort(d, IntLe);
    forall y | y in r ensures multiset(r)[y] <= 1 {
      NoDupCounts(d, y);
    }
    CountsNoDup(r);
    assert forall y :: y in r <==> y in multiset(d);
    r
  }

  /** `calculateDayStreak` over day numbers: the distinct days sorted in date order,
      then the backward loop that counts one-day steps and stops at the first gap. */
  method CalculateDayStreak(days: seq<int>, today: int) returns (streak: nat)
    ensures streak == Streak(UniqueDays(days), today)
  {
    if |days| == 0 {
      return 0;
    }
    var unique := UniqueDays(days);
    if unique[|unique| - 1] != today {
      return 0;
    }
    streak := 1;
    var i := |unique| - 1;
    assert unique[..i + 1] == unique;
    while i > 0
      invariant 0 <= i < |unique|
      invariant streak + RunBack(unique[..i + 1]) == 1 + RunBack(unique)
    {
      RunBackUnfold(unique, i);
      if Abs(unique[i] - unique[i - 1]) == 1 {
        streak := streak + 1;
      } else {
        break;
      }
      i := i - 1;
    }
  }

  lemma RunBackUnfold(s: seq<int>, i: nat)
    requires 1 <= i < |s|
    ensures RunBack(s[..i + 1]) == if Abs(s[i] - s[i - 1]) == 1 then 1 + RunBack(s[..i]) else 0
  {
    assert s[..i + 1][..i] == s[..i];
  }

  lemma {:induction false} RunBackSteps(s: seq<int>, k: nat)
    requires StrictlyIncreasing(s) && |s| > 0 && k <= RunBack(s)
    ensures s[|s| - 1 - k] == s[|s| - 1] - k
    decreases |s|
  {
    if k > 0 {
      var init := s[..|s| - 1];
      assert s[|s| - 2] < s[|s| - 1];
      RunBackSteps(init, k - 1);
    }
  }

  lemma {:induction false} RunBackStops(s: seq<int>)
    requires StrictlyIncreasing(s) && |s| > 0
    ensures forall i :: 0 <= i < |s| - 1 - RunBack(s) ==> s[i] < s[|s| - 1] - RunBack(s) - 1
    decreases |s|
  {
    var n := RunBack(s);
    if |s| >= 2 {
      var init := s[..|s| - 1];
      if n == 0 {
        assert s[|s| - 2] < s[|s| - 1];
        forall i | 0 <= i < |s| - 1 ensures s[i] < s[|s| - 1] - 1 {
          assert s[i] <= s[|s| - 2];
        }
      } else {
        assert s[|s| - 2] < s[|s| - 1];
        RunBackStops(init);
      }
    }
  }

  /** The last of the unique days is the latest day with an entry. */
  lemma UniqueDaysLast(days: seq<int>)
    requires |UniqueDays(days)| > 0
    ensures UniqueDays(days)[|UniqueDays(days)| - 1] in days
    ensures forall d :: d in days ==> d <= UniqueDays(days)[|UniqueDays(days)| - 1]
  {
    var u := UniqueDays(days);
    var last := |u| - 1;
    assert u[last] in u;
    forall d | d in days ensures d <= u[last] {
      var i :| 0 <= i < |u| && u[i] == d;
      assert i == last || u[i] < u[last];
    }
  }

  /** The streak is positive exactly when there is an entry today and none later. */
  lemma StreakPositive(days: seq<int>, today: int)
    ensures Streak(UniqueDays(days), today) > 0 <==> today in days && forall d :: d in days ==> d <= today
  {
    var u := UniqueDays(days);
    if |u| > 0 {
      UniqueDaysLast(days);
    }
  }

  /** Every day of the streak, counting back from today, has an entry. */
  lemma StreakDaysHaveEntries(days: seq<int>, today: int)
    ensures forall d :: today - Streak(UniqueDays(days), today) < d <= today ==> d in days
  {
    var u := UniqueDays(days);
    var n := Streak(u, today);
    forall d | today - n < d <= today ensures d in days {
      var last := |u| - 1;
      RunBackSteps(u, today - d);
      assert u[last - (today - d)] in u;
    }
  }

  /** The day before the streak has no entry: the streak is as long as it can be. */
  lemma StreakIsMaximal(days: seq<int>, today: int)
    requires Streak(UniqueDays(days), today) > 0
    ensures today - Streak(UniqueDays(days), today) !in days
  {
    var u := UniqueDays(days);
    StreakOnIncreasingIsMaximal(u, today);
  }

  /** The same on strictly increasing days: the day before the streak is not among them. */
  lemma StreakOnIncreasingIsMaximal(u: seq<int>, today: int)
    requires StrictlyIncreasing(u) && Streak(u, today) > 0
    ensures today - Streak(u, today) !in u
  {
    RunBackMaximal(u);
    assert today - Streak(u, today) == u[|u| - 1] - RunBack(u) - 1;
  }

  /** In strictly increasing days, the day just before the run ending at the last day is absent. */
  lemma RunBackMaximal(s: seq<int>)
    requires StrictlyIncreasing(s) && |s| > 0
    ensures s[|s| - 1] - RunBack(s) - 1 !in s
  {
    var m := RunBack(s);
    var last := |s| - 1;
    RunBackStops(s);
    RunBackSteps(s, m);
    forall i | 0 <= i < |s| ensures s[i] != s[last] - m - 1 {
      if i > last - m {
        assert s[last - m] < s[i];
      }
    }
  }

  /** The streak never exceeds the number of distinct days with an entry. */
  lemma StreakBound(days: seq<int>, today: int)
    ensures Streak(UniqueDays(days), today) <= |Distinct(days)|
  {
    var u := UniqueDays(days);
    IntLeIsPreorder();
    assert |u| == |Sort(Distinct(days), IntLe)|;
  }

  /** The day numbers of a list of local dates. */
  function DayNumbers(dates: seq<CalendarDate>): (r: seq<int>)
    ensures |r| == |dates| && forall i :: 0 <= i < |dates| ==> r[i] == DayNumber(dates[i])
  {
    seq(|dates|, i requires 0 <= i < |dates| => DayNumber(dates[i]))
  }

  /* ---------- the day streak as written: keys sorted as text ---------- */

  function DayKeys(dates: seq<CalendarDate>): (r: seq<string>)
    ensures |r| == |dates| && forall i :: 0 <= i < |dates| ==> r[i] == DayKey(dates[i])
  {
    seq(|dates|, i requires 0 <= i < |dates| => DayKey(dates[i]))
  }

  /** `[...new Set(dates)].sort()`: the distinct day keys in code-unit order. */
  function SortedDayKeys(dates: seq<CalendarDate>): (r: seq<string>)
    ensures Sorted(r, AscendingBy(Itself))
    ensures forall k :: k in r <==> k in DayKeys(dates)
  {
    AscendingByIsPreorder(Itself);
    var d := Distinct(DayKeys(dates));
    var r := Sort(d, AscendingBy(Itself));
    assert forall y :: y in r <==> y in multiset(d);
    r
  }

  /** The loop of `calculateDayStreak` as written, on the sorted distinct keys: 0 unless
      the last key is today's, else 1 plus the run of one-day steps back from it, each key
      turned back into a day by `dayOfKey`. */
  function StreakOfKeys(keys: seq<string>, todayKey: string, dayOfKey: string -> int): (r: nat)
    ensures r > 0 ==> |keys| > 0 && keys[|keys| - 1] == todayKey
  {
    if |keys| == 0 || keys[|keys| - 1] != todayKey then 0
    else 1 + RunBack(seq(|keys|, i requires 0 <= i < |keys| => dayOfKey(keys[i])))
  }

  /** `calculateDayStreak` as written: the "latest" key is the last in text order, and
      each key is turned back into a day by `dayOfKey` (the `new Date(key.split("-"))` parse). */
  function DayStreakAsWritten(dates: seq<CalendarDate>, today: CalendarDate, dayOfKey: string -> int): (r: nat)
    ensures dates == [] ==> r == 0
    ensures r > 0 ==> |SortedDayKeys(dates)| > 0 && SortedDayKeys(dates)[|SortedDayKeys(dates)| - 1] == DayKey(today)
  {
    StreakOfKeys(SortedDayKeys(dates), DayKey(today), dayOfKey)
  }

  /** The year 2024 prints as "2024". */
  lemma Year2024Text()
    ensures YearToString(2024) == "2024"
  {
    assert NatToString(20) == "20";
    assert NatToString(202) == "202";
  }

  /** The keys of 9 and 10 January 2024 (month 0). */
  lemma ExampleDayKeys()
    ensures DayKey(CalendarDate(2024, 0, 9)) == "2024-0-9"
    ensures DayKey(CalendarDate(2024, 0, 10)) == "2024-0-10"
  {
    Year2024Text();
    assert NatToString(10) == "10";
  }

  /** As text, "2024-0-10" sorts before "2024-0-9". */
  lemma ExampleKeysOrder()
    ensures DayKey(CalendarDate(2024, 0, 9)) == "2024-0-9"
    ensures DayKey(CalendarDate(2024, 0, 10)) == "2024-0-10"
    ensures !StrLe("2024-0-9", "2024-0-10")
  {
    ExampleDayKeys();
    var p := "2024-0-";
    assert "2024-0-9" == p + "9" && "2024-0-10" == p + "10";
    StrLeCommonPrefix(p, "9", "10");
  }

  /** As written, any entry whose key sorts after today's key as text wipes the streak. */
  lemma AsWrittenLaterKeyWipesStreak(dates: seq<CalendarDate>, today: CalendarDate, dayOfKey: string -> int, k: string)
    requires k in DayKeys(dates) && !StrLe(k, DayKey(today))
    ensures DayStreakAsWritten(dates, today, dayOfKey) == 0
  {
    var keys := SortedDayKeys(dates);
    assert k in keys;
    LaterKeyWipesStreak(keys, k, DayKey(today), dayOfKey);
  }

  /** In keys sorted as text, a key above today's keeps today's from being last. */
  lemma LaterKeyWipesStreak(keys: seq<string>, k: string, todayKey: string, dayOfKey: string -> int)
    requires Sorted(keys, AscendingBy(Itself)) && k in keys && !StrLe(k, todayKey)
    ensures StreakOfKeys(keys, todayKey, dayOfKey) == 0
  {
    SortedStringsLast(keys, k);
  }

  /** An entry yesterday (9 January) and one today (10 January): the written code
      takes 9 January as the latest day and reports no streak, whatever the parse. */
  lemma DayStreakAsWrittenMissesToday(dayOfKey: string -> int)
    ensures DayStreakAsWritten([CalendarDate(2024, 0, 9), CalendarDate(2024, 0, 10)], CalendarDate(2024, 0, 10), dayOfKey) == 0
  {
    var dates := [CalendarDate(2024, 0, 9), CalendarDate(2024, 0, 10)];
    ExampleKeysOrder();
    assert DayKeys(dates)[0] == "2024-0-9";
    AsWrittenLaterKeyWipesStreak(dates, CalendarDate(2024, 0, 10), dayOfKey, "2024-0-9");
  }

  /** An entry yesterday and one today make a streak of 2. */
  lemma StreakOfYesterdayAndToday(d: int)
    ensures Streak(UniqueDays([d, d + 1]), d + 1) == 2
  {
    var u := UniqueDays([d, d + 1]);
    assert d in u && d + 1 in u;
    assert u == [d, d + 1];
  }

  /** The same two entries by date order: a streak of 2. */
  lemma DayStreakByDateCountsYesterday()
    ensures Streak(UniqueDays(DayNumbers([CalendarDate(2024, 0, 9), CalendarDate(2024, 0, 10)])), DayNumber(CalendarDate(2024, 0, 10))) == 2
  {
    var d9 := DayNumber(CalendarDate(2024, 0, 9));
    assert DayNumber(CalendarDate(2024, 0, 10)) == d9 + 1;
    assert DayNumbers([CalendarDate(2024, 0, 9), CalendarDate(2024, 0, 10)]) == [d9, d9 + 1];
    StreakOfYesterdayAndToday(d9);
  }

  /* ---------- statistics ---------- */

  /** `entry.symptoms?.length || 0`. */
  function Items(list: Option<seq<string>>): seq<string> {
    if list.Some? then list.value else []
  }

  /** `reduce((total, entry) => total + (entry.symptoms?.length || 0), 0)`. */
  function TotalSymptoms(entries: seq<Row<Entry>>): nat {
    if entries == [] then 0
    else TotalSymptoms(entries[..|entries| - 1]) + |Items(entries[|entries| - 1].data.symptoms)|
  }

  /** The total is additive over any split of the entries. */
  lemma {:induction false} TotalSymptomsAppend(a: seq<Row<Entry>>, b: seq<Row<Entry>>)
    ensures TotalSymptoms(a + b) == TotalSymptoms(a) + TotalSymptoms(b)
    decreases |b|
  {
    if b == [] {
      assert a + b == a;
    } else {
      assert (a + b)[..|a + b| - 1] == a + b[..|b| - 1];
      TotalSymptomsAppend(a, b[..|b| - 1]);
    }
  }

  /** The symptom lists of the entries. */
  function SymptomLists(entries: seq<Row<Entry>>): (r: seq<Option<seq<string>>>)
    ensures |r| == |entries| && forall i :: 0 <= i < |entries| ==> r[i] == entries[i].data.symptoms
  {
    seq(|entries|, i requires 0 <= i < |entries| => entries[i].data.symptoms)
  }

  /** The tag lists of the entries. */
  function TagLists(entries: seq<Row<Entry>>): (r: seq<Option<seq<string>>>)
    ensures |r| == |entries| && forall i :: 0 <= i < |entries| ==> r[i] == entries[i].data.tags
  {
    seq(|entries|, i requires 0 <= i < |entries| => entries[i].data.tags)
  }

  /** Every item of every present list, entry by entry. */
  function Flatten(lists: seq<Option<seq<string>>>): seq<string> {
    if lists == [] then [] else Flatten(lists[..|lists| - 1]) + Items(lists[|lists| - 1])
  }

  /** The symptom total is the number of symptoms the analysis view counts. */
  lemma {:induction false} TotalSymptomsIsFlattenLength(entries: seq<Row<Entry>>)
    ensures TotalSymptoms(entries) == |Flatten(SymptomLists(entries))|
  {
    if entries != [] {
      var init := entries[..|entries| - 1];
      assert SymptomLists(entries)[..|entries| - 1] == SymptomLists(init);
      TotalSymptomsIsFlattenLength(init);
    }
  }

  /** `Math.min(20, entries + streak)` and `Math.floor(points / 10) + 1`. */
  function HealthPoints(entryCount: nat, dayStreak: nat): (p: nat)
    ensures p <= 20 && (p == 20 || p == entryCount + dayStreak) && p <= entryCount + dayStreak
  {
    if entryCount + dayStreak < 20 then entryCount + dayStreak else 20
  }

  function HealthLevel(points: nat): (l: int)
    requires points <= 20
    ensures 1 <= l <= 3
    ensures (l - 1) * 10 <= points < l * 10
  {
    points / 10 + 1
  }

  /** The day numbers of the entries' local dates. */
  function EntryDays(entries: seq<Row<Entry>>): (r: seq<int>)
    ensures |r| == |entries| && forall i :: 0 <= i < |entries| ==> r[i] == DayNumber(entries[i].data.timestamp.local)
  {
    seq(|entries|, i requires 0 <= i < |entries| => DayNumber(entries[i].data.timestamp.local))
  }

  /** The statistics the page shows for `entries` on `today`. */
  function StatsOf(entries: seq<Row<Entry>>, today: CalendarDate): HealthStats {
    var dayStreak := Streak(UniqueDays(EntryDays(entries)), DayNumber(today));
    var points := HealthPoints(|entries|, dayStreak);
    HealthStats(points, HealthLevel(points), dayStreak, TotalSymptoms(entries))
  }

  /** `calculateHealthStats`: streak, symptom total, points capped at 20, level 1 to 3. */
  method CalculateHealthStats(entries: seq<Row<Entry>>, today: CalendarDate) returns (stats: HealthStats)
    ensures stats == StatsOf(entries, today)
    ensures stats.dayStreak == Streak(UniqueDays(EntryDays(entries)), DayNumber(today))
    ensures stats.totalSymptoms == TotalSymptoms(entries)
    ensures stats.healthPoints == HealthPoints(|entries|, stats.dayStreak)
    ensures 0 <= stats.healthPoints <= 20
    ensures stats.healthLevel == HealthLevel(stats.healthPoints) && 1 <= stats.healthLevel <= 3
  {
    var dayStreak := CalculateDayStreak(EntryDays(entries), DayNumber(today));
    var totalSymptoms := TotalSymptoms(entries);
    var healthPoints := HealthPoints(|entries|, dayStreak);
    var healthLevel := HealthLevel(healthPoints);
    stats := HealthStats(healthPoints, healthLevel, dayStreak, totalSymptoms);
  }

  /* ---------- analysis counts ---------- */

  /** `counts` holds, for each item of `s`, how often it occurs, and nothing else. */
  ghost predicate CountsOf(counts: map<string, nat>, s: seq<string>) {
    forall k :: (k in counts <==> k in multiset(s)) && (k in counts ==> counts[k] == multiset(s)[k])
  }

  lemma CountStep(counts: map<string, nat>, s: seq<string>, x: string)
    requires CountsOf(counts, s)
    ensures CountsOf(counts[x := (if x in counts then counts[x] else 0) + 1], s + [x])
  {
    assert multiset(s + [x]) == multiset(s) + multiset{x};
  }

  lemma FlattenSnoc(lists: seq<Option<seq<string>>>, i: nat)
    requires i < |lists|
    ensures Flatten(lists[..i + 1]) == Flatten(lists[..i]) + Items(lists[i])
  {
    assert lists[..i + 1][..i] == lists[..i];
  }

  /** The inner `forEach`: adds one list's items to the counts. */
  method CountItems(counts: map<string, nat>, ghost done: seq<string>, items: seq<string>) returns (r: map<string, nat>)
    requires CountsOf(counts, done)
    ensures CountsOf(r, done + items)
  {
    r := counts;
    var j := 0;
    while j < |items|
      invariant 0 <= j <= |items|
      invariant CountsOf(r, done + items[..j])
    {
      var item := items[j];
      CountStep(r, done + items[..j], item);
      r := r[item := (if item in r then r[item] else 0) + 1];
      assert items[..j + 1] == items[..j] + [item];
      assert done + items[..j + 1] == (done + items[..j]) + [item];
      j := j + 1;
    }
    assert items[..j] == items;
  }

  /** The `forEach` counting into a dictionary: each item's number of occurrences
      over the entries that have the list. */
  method CountOccurrences(lists: seq<Option<seq<string>>>) returns (counts: map<string, nat>)
    ensures forall k :: k in counts <==> k in Flatten(lists)
    ensures forall k :: k in counts ==> counts[k] == multiset(Flatten(lists))[k]
  {
    counts := map[];
    var i := 0;
    while i < |lists|
      invariant 0 <= i <= |lists|
      invariant CountsOf(counts, Flatten(lists[..i]))
    {
      FlattenSnoc(lists, i);
      if lists[i].Some? {
        counts := CountItems(counts, Flatten(lists[..i]), lists[i].value);
      } else {
        assert Flatten(lists[..i + 1]) == Flatten(lists[..i]) + [];
      }
      i := i + 1;
    }
    assert lists[..i] == lists;
    assert forall k :: k in Flatten(lists) <==> k in multiset(Flatten(lists));
  }

  /** The analysis view's `tagCounts` and `symptomCounts`. */
  method AnalysisCounts(entries: seq<Row<Entry>>) returns (tagCounts: map<string, nat>, symptomCounts: map<string, nat>)
    ensures forall t :: t in tagCounts <==> t in Flatten(TagLists(entries))
    ensures forall t :: t in tagCounts ==> tagCounts[t] == multiset(Flatten(TagLists(entries)))[t]
    ensures forall s :: s in symptomCounts <==> s in Flatten(SymptomLists(entries))
    ensures forall s :: s in symptomCounts ==> symptomCounts[s] == multiset(Flatten(SymptomLists(entries)))[s]
  {
    tagCounts := CountOccurrences(TagLists(entries));
    symptomCounts := CountOccurrences(SymptomLists(entries));
  }

  /* ---------- the page ---------- */

  /** The guard of `handleAddEntry`: no text, no symptom and no structured subject. */
  predicate NothingToSave(draft: Draft, selectedSymptoms: seq<string>) {
    Trim(draft.content) == "" && selectedSymptoms == [] && draft.structured.subject == ""
  }

  /** An entry is refused exactly when its text is blank, no symptom is chosen and it has no subject. */
  lemma NothingToSaveMeaning(draft: Draft, selectedSymptoms: seq<string>)
    ensures NothingToSave(draft, selectedSymptoms) <==>
      IsBlank(draft.content) && |selectedSymptoms| == 0 && |draft.structured.subject| == 0
  {
    TrimEmptyIffBlank(draft.content);
  }

  /** `entryData`: the draft with the chosen symptoms, intensity, body part and save time. */
  function EntryData(draft: Draft, symptoms: seq<string>, intensity: int, bodyPart: string, now: Timestamp): (e: Entry)
    ensures e.content == draft.content && e.tags == Some(draft.tags) && e.structured == draft.structured
    ensures e.symptoms == Some(symptoms) && e.intensity == intensity && e.timestamp == now
    ensures bodyPart == "" ==> e.bodyParts == []
    ensures bodyPart != "" ==> e.bodyParts == [bodyPart]
  {
    Entry(draft.content, Some(draft.tags), Some(symptoms), intensity, if bodyPart == "" then [] else [bodyPart], now, draft.structured)
  }

  /** The list's sort key: the entry's ISO timestamp. */
  function EntryTime(entry: Row<Entry>): string {
    entry.data.timestamp.iso
  }

  /** `toggleTag`: the draft's tags with the tag toggled. */
  function ToggleTag(draft: Draft, tag: string): (r: Draft)
    ensures tag in r.tags <==> tag !in draft.tags
    ensures multiset(r.tags)[tag := 0] == multiset(draft.tags)[tag := 0]
    ensures tag !in draft.tags ==>
      && |r.tags| == |draft.tags| + 1 && r.tags[..|draft.tags|] == draft.tags && r.tags[|draft.tags|] == tag
    ensures tag in draft.tags ==> r.tags == Without(draft.tags, tag)
    ensures r == draft.(tags := r.tags)
  {
    ToggleMembership(draft.tags, tag);
    draft.(tags := Toggle(draft.tags, tag))
  }

  /** Choosing an unchosen tag and then un-choosing it restores the draft. */
  lemma ToggleTagTwice(draft: Draft, tag: string)
    requires tag !in draft.tags
    ensures ToggleTag(ToggleTag(draft, tag), tag) == draft
  {
    ToggleTwiceAbsent(draft.tags, tag);
  }

  /** The journal page state and its `cognitiveEntries` table. */
  class JournalPage {
    var entries: seq<Row<Entry>>
    var draft: Draft
    var selectedSymptoms: seq<string>
    var bodyPart: string
    var symptomIntensity: int
    var healthStats: HealthStats
    var selectedEntry: Option<Row<Entry>>
    var isAddingEntry: bool
    const table: Table<Entry>

    ghost predicate Valid()
      reads this, table
    {
      table.Valid()
    }

    constructor (table: Table<Entry>)
      requires table.Valid()
      ensures Valid() && this.table == table
      ensures entries == [] && draft == EmptyDraft && selectedSymptoms == [] && bodyPart == ""
      ensures symptomIntensity == 0 && healthStats == HealthStats(10, 1, 3, 0)
      ensures selectedEntry == None && !isAddingEntry
    {
      this.table := table;
      entries := [];
      draft := EmptyDraft;
      selectedSymptoms := [];
      bodyPart := "";
      symptomIntensity := 0;
      healthStats := HealthStats(10, 1, 3, 0);
      selectedEntry := None;
      isAddingEntry := false;
    }

    /** `loadEntries`: the stored entries, newest first, and their statistics. */
    method LoadEntries(today: CalendarDate)
      requires Valid()
      modifies this`entries, this`healthStats
      ensures Valid()
      ensures entries == NewestFirst(table.rows, EntryTime)
      ensures healthStats == StatsOf(entries, today)
    {
      var loaded := table.ToArray();
      entries := NewestFirst(loaded, EntryTime);
      healthStats := CalculateHealthStats(entries, today);
    }

    /** `toggleTag`. */
    method ToggleDraftTag(tag: string)
      modifies this`draft
      ensures draft == ToggleTag(old(draft), tag)
    {
      draft := ToggleTag(draft, tag);
    }

    /** `toggleSymptom`: the selected symptoms with the symptom toggled. */
    method ToggleSymptom(symptom: string)
      modifies this`selectedSymptoms
      ensures selectedSymptoms == Toggle(old(selectedSymptoms), symptom)
      ensures symptom in selectedSymptoms <==> symptom !in old(selectedSymptoms)
      ensures multiset(selectedSymptoms)[symptom := 0] == multiset(old(selectedSymptoms))[symptom := 0]
      ensures symptom !in old(selectedSymptoms) ==>
        && |selectedSymptoms| == |old(selectedSymptoms)| + 1
        && selectedSymptoms[..|old(selectedSymptoms)|] == old(selectedSymptoms)
        && selectedSymptoms[|old(selectedSymptoms)|] == symptom
      ensures symptom in old(selectedSymptoms) ==> selectedSymptoms == Without(old(selectedSymptoms), symptom)
    {
      ToggleMembership(selectedSymptoms, symptom);
      selectedSymptoms := Toggle(selectedSymptoms, symptom);
    }

    /** `handleAddEntry`: refuses an empty entry without touching anything; otherwise
        stores the entry under a fresh key, puts it first in the list, recomputes the
        statistics and resets the form. */
    method HandleAddEntry(now: Timestamp, today: CalendarDate) returns (saved: bool)
      requires Valid()
      modifies this`entries, this`draft, this`selectedSymptoms, this`bodyPart, this`symptomIntensity
      modifies this`healthStats, this`isAddingEntry, table
      ensures Valid()
      ensures saved <==> !NothingToSave(old(draft), old(selectedSymptoms))
      ensures !saved ==>
        && table.rows == old(table.rows) && table.nextId == old(table.nextId)
        && entries == old(entries) && draft == old(draft) && selectedSymptoms == old(selectedSymptoms)
        && healthStats == old(healthStats) && bodyPart == old(bodyPart)
        && symptomIntensity == old(symptomIntensity) && selectedEntry == old(selectedEntry)
        && isAddingEntry == old(isAddingEntry)
      ensures saved ==>
        var entry := Row(old(table.nextId), EntryData(old(draft), old(selectedSymptoms), old(symptomIntensity), old(bodyPart), now));
        && table.rows == old(table.rows) + [entry]
        && entries == [entry] + old(entries)
        && !HasId(old(table.rows), entry.id) && table.nextId == old(table.nextId) + 1
        && healthStats == StatsOf(entries, today)
        && draft == EmptyDraft && selectedSymptoms == [] && bodyPart == "" && symptomIntensity == 0
        && !isAddingEntry && selectedEntry == old(selectedEntry)
    {
      if NothingToSave(draft, selectedSymptoms) {
        return false;
      }
      SaveEntry(now, today);
      saved := true;
    }

    /** The `try` block of `handleAddEntry`: store, prepend, recompute, reset. */
    method SaveEntry(now: Timestamp, today: CalendarDate)
      requires Valid()
      modifies this`entries, this`draft, this`selectedSymptoms, this`bodyPart, this`symptomIntensity
      modifies this`healthStats, this`isAddingEntry, table
      ensures Valid()
      ensures
        var entry := Row(old(table.nextId), EntryData(old(draft), old(selectedSymptoms), old(symptomIntensity), old(bodyPart), now));
        && table.rows == old(table.rows) + [entry]
        && entries == [entry] + old(entries)
        && !HasId(old(table.rows), entry.id) && table.nextId == old(table.nextId) + 1
        && healthStats == StatsOf(entries, today)
        && draft == EmptyDraft && selectedSymptoms == [] && bodyPart == "" && symptomIntensity == 0
        && !isAddingEntry
    {
      var entryData := EntryData(draft, selectedSymptoms, symptomIntensity, bodyPart, now);
      var id := table.Add(entryData);
      entries := [Row(id, entryData)] + entries;
      RefreshStats(today);
      ResetForm();
    }

    /** The form reset after a save: an empty draft and no symptom, body part or intensity. */
    method ResetForm()
      modifies this`draft, this`selectedSymptoms, this`bodyPart, this`symptomIntensity, this`isAddingEntry
      ensures draft == EmptyDraft && selectedSymptoms == [] && bodyPart == "" && symptomIntensity == 0
      ensures !isAddingEntry
    {
      draft, selectedSymptoms, bodyPart, symptomIntensity, isAddingEntry := EmptyDraft, [], "", 0, false;
    }

    /** `calculateHealthStats(updatedEntries)` after the list changed. */
    method RefreshStats(today: CalendarDate)
      modifies this`healthStats
      ensures healthStats == StatsOf(entries, today)
    {
      healthStats := CalculateHealthStats(entries, today);
    }

    /** `handleDeleteEntry`: after confirmation the entry leaves the table and the list,
        the statistics are recomputed and a selection of that entry is cleared. */
    method HandleDeleteEntry(id: int, confirmed: bool, today: CalendarDate)
      requires Valid()
      modifies this`entries, this`healthStats, this`selectedEntry, table`rows
      ensures Valid()
      ensures confirmed ==>
        && table.rows == RemoveId(old(table.rows), id)
        && entries == RemoveId(old(entries), id)
        && healthStats == StatsOf(entries, today)
        && selectedEntry == (if old(selectedEntry).Some? && old(selectedEntry).value.id == id then None else old(selectedEntry))
      ensures !confirmed ==>
        table.rows == old(table.rows) && entries == old(entries) && healthStats == old(healthStats)
        && selectedEntry == old(selectedEntry)
    {
      if confirmed {
        table.Delete(id);
        entries := RemoveId(entries, id);
        healthStats := CalculateHealthStats(entries, today);
        if selectedEntry.Some? && selectedEntry.value.id == id {
          selectedEntry := None;
        }
      }
    }
  }
}
