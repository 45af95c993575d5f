/** The home page (src/pages/HomePage.jsx): the wellness activities, their
    shuffle, the high-blood-pressure and low-mood flags read from the latest
    reading and journal entry, and the activities recommended from the flags. */
module HomePage {
  import opened Wrappers
  import opened Text
  import opened Ordering
  import opened Records
  import BPTracker
  import CognitiveJournal

  /** An activity with the two conditions it is suited to. */
  datatype Activity = Activity(id: nat, name: string, forHighBP: bool, forLowMood: bool)

  /** `activities`, in declaration order. */
  const Activities: seq<Activity> := [
    Activity(1, "Mindful Breathing", true, true),
    Activity(2, "Gentle Neck Stretches", true, false),
    Activity(3, "Nature Walk", false, true),
    Activity(4, "Reading \"The Peace of Wild Things\"", true, true),
    Activity(5, "Memory Match Game", false, true),
    Activity(6, "Lower Back Rehabilitation", false, false),
    Activity(7, "Body Scan Meditation", true, true),
    Activity(8, "Word Association Game", false, true),
    Activity(9, "Shoulder Mobility Exercises", false, false)
  ]

  /* ---------- shuffle ---------- */

  /** The random index drawn for each position `i` lies in `0..i`. */
  predicate ValidChoices(choices: seq<nat>, n: nat) {
    |choices| >= n && forall i :: 0 < i < n ==> choices[i] <= i
  }

  function Swap<T>(s: seq<T>, i: nat, j: nat): (r: seq<T>)
    requires i < |s| && j < |s|
    ensures |r| == |s|
  {
    s[i := s[j]][j := s[i]]
  }

  /** A swap exchanges two elements and keeps every other one. */
  lemma SwapPermutes<T>(s: seq<T>, i: nat, j: nat)
    requires i < |s| && j < |s|
    ensures multiset(Swap(s, i, j)) == multiset(s)
  {
  }

  /** The array after the swaps for positions `|s| - 1` down to `i + 1`, in that order. */
  function SwappedAbove<T>(s: seq<T>, choices: seq<nat>, i: nat): (r: seq<T>)
    requires i < |s| && ValidChoices(choices, |s|)
    ensures |r| == |s|
    decreases |s| - i
  {
    if i == |s| - 1 then s else Swap(SwappedAbove(s, choices, i + 1), i + 1, choices[i + 1])
  }

  /** Once position `i` has been swapped, later swaps (at lower positions) never move it again. */
  lemma {:induction false} SwappedAboveSettles<T>(s: seq<T>, choices: seq<nat>, i: nat, k: nat)
    requires i < k < |s| && ValidChoices(choices, |s|)
    ensures SwappedAbove(s, choices, i)[k] == SwappedAbove(s, choices, k - 1)[k]
    decreases k - i
  {
    if i < k - 1 {
      var prev := SwappedAbove(s, choices, i + 1);
      assert choices[i + 1] <= i + 1 < k;
      assert SwappedAbove(s, choices, i) == Swap(prev, i + 1, choices[i + 1]);
      assert Swap(prev, i + 1, choices[i + 1])[k] == prev[k];
      SwappedAboveSettles(s, choices, i + 1, k);
      assert prev[k] == SwappedAbove(s, choices, k - 1)[k];
    }
  }

  /** `[newArray[i], newArray[j]] = [newArray[j], newArray[i]]`. */
  method SwapElements<T>(a: array<T>, i: nat, j: nat)
    requires i < a.Length && j < a.Length
    modifies a
    ensures a[..] == Swap(old(a[..]), i, j)
  {
    a[i], a[j] := a[j], a[i];
  }

  /** One iteration of the shuffle loop: swap position `i` with `choices[i]`. */
  method ShuffleStep<T>(a: array<T>, ghost input: seq<T>, choices: seq<nat>, i: nat)
    requires 0 < i < a.Length == |input| && ValidChoices(choices, |input|)
    requires a[..] == SwappedAbove(input, choices, i) && multiset(a[..]) == multiset(input)
    modifies a
    ensures a[..] == SwappedAbove(input, choices, i - 1) && multiset(a[..]) == multiset(input)
  {
    ghost var prev := a[..];
    SwapElements(a, i, choices[i]);
    SwapPermutes(prev, i, choices[i]);
  }

  /** `shuffleArray`: Fisher–Yates on a copy of the input, `i` running from the last
      position down to 1 and swapping it with the drawn position `choices[i]`. */
  method ShuffleArray<T>(input: seq<T>, choices: seq<nat>) returns (r: seq<T>)
    requires ValidChoices(choices, |input|)
    ensures |input| > 0 ==> r == SwappedAbove(input, choices, 0)
    ensures |r| == |input| && multiset(r) == multiset(input)
  {
    if |input| == 0 {
      return [];
    }
    var a := new T[|input|](k requires 0 <= k < |input| => input[k]);
    var i := a.Length - 1;
    assert a[..] == input;
    while i > 0
      invariant 0 <= i < a.Length
      invariant a[..] == SwappedAbove(input, choices, i) && multiset(a[..]) == multiset(input)
    {
      ShuffleStep(a, input, choices, i);
      i := i - 1;
    }
    r := a[..];
  }

  /* ---------- flags ---------- */

  /** The latest reading by date: the head of the list sorted newest first. */
  function LatestReading(logs: seq<Row<BPTracker.BPLog>>): (r: Row<BPTracker.BPLog>)
    requires |logs| > 0
    ensures r in logs
    ensures forall x :: x in logs ==> StrLe(BPTracker.LogDate(x), BPTracker.LogDate(r))
  {
    var sorted := NewestFirst(logs, BPTracker.LogDate);
    assert sorted[0] in multiset(logs);
    DescendingByIsPreorder(BPTracker.LogDate);
    forall x | x in logs ensures StrLe(BPTracker.LogDate(x), BPTracker.LogDate(sorted[0])) {
      assert x in multiset(sorted);
      SortedHead(sorted, DescendingBy(BPTracker.LogDate), x);
    }
    sorted[0]
  }

  /** `hasHighBP`: the latest reading has systolic above 130 or diastolic above 85.
      `None` is a store without a `bpLogs` table; with no reading the flag stays false. */
  function HasHighBP(bpLogs: Option<seq<Row<BPTracker.BPLog>>>): (r: bool)
    ensures r <==> (bpLogs.Some? && |bpLogs.value| > 0 &&
      (LatestReading(bpLogs.value).data.form.systolic > 130 || LatestReading(bpLogs.value).data.form.diastolic > 85))
  {
    if bpLogs.None? || |bpLogs.value| == 0 then false
    else
      var latest := LatestReading(bpLogs.value).data.form;
      latest.systolic > 130 || latest.diastolic > 85
  }

  /** The home page's threshold is the "high" class of the reading's classification. */
  lemma HasHighBPIsHighClass(bpLogs: Option<seq<Row<BPTracker.BPLog>>>)
    ensures HasHighBP(bpLogs) <==> (bpLogs.Some? && |bpLogs.value| > 0 &&
      BPTracker.ClassifyBP(LatestReading(bpLogs.value).data.form.systolic, LatestReading(bpLogs.value).data.form.diastolic) == BPTracker.High)
  {
  }

  const LowMoodKeywords: seq<string> := ["sad", "depressed", "anxious", "tired", "stressed", "worried"]

  /** A tag naming emotional processing. */
  predicate EmotionTag(tag: string) {
    Contains(Lower(tag), "emotion") || Contains(Lower(tag), "processing")
  }

  /** The low-mood test of one entry: a keyword in its lower-cased text, or an emotion tag. */
  predicate LowMoodEntry(e: CognitiveJournal.Entry) {
    (e.content != "" && exists k :: k in LowMoodKeywords && Contains(Lower(e.content), k))
    || (e.tags.Some? && exists t :: t in e.tags.value && EmotionTag(t))
  }

  /** The latest journal entry by timestamp. */
  function LatestEntry(entries: seq<Row<CognitiveJournal.Entry>>): (r: Row<CognitiveJournal.Entry>)
    requires |entries| > 0
    ensures r in entries
    ensures forall x :: x in entries ==> StrLe(CognitiveJournal.EntryTime(x), CognitiveJournal.EntryTime(r))
  {
    var sorted := NewestFirst(entries, CognitiveJournal.EntryTime);
    assert sorted[0] in multiset(entries);
    DescendingByIsPreorder(CognitiveJournal.EntryTime);
    forall x | x in entries ensures StrLe(CognitiveJournal.EntryTime(x), CognitiveJournal.EntryTime(sorted[0])) {
      assert x in multiset(sorted);
      SortedHead(sorted, DescendingBy(CognitiveJournal.EntryTime), x);
    }
    sorted[0]
  }

  /** `hasLowMood`: the latest entry passes the low-mood test. `None` is a store
      without a `cognitiveEntries` table; with no entry the flag stays false. */
  function HasLowMood(entries: Option<seq<Row<CognitiveJournal.Entry>>>): (r: bool)
    ensures r <==> entries.Some? && |entries.value| > 0 && LowMoodEntry(LatestEntry(entries.value).data)
  {
    if entries.None? || |entries.value| == 0 then false
    else LowMoodEntry(LatestEntry(entries.value).data)
  }

  lemma LowerAppend(a: string, b: string)
    ensures Lower(a + b) == Lower(a) + Lower(b)
  {
    assert forall i :: 0 <= i < |a + b| ==> Lower(a + b)[i] == (Lower(a) + Lower(b))[i];
  }

  /** More text around an entry's content never clears the low-mood flag. */
  lemma LowMoodKeepsWithMoreText(e: CognitiveJournal.Entry, before: string, after: string)
    requires LowMoodEntry(e)
    ensures LowMoodEntry(e.(content := before + e.content + after))
  {
    if e.content != "" && exists k :: k in LowMoodKeywords && Contains(Lower(e.content), k) {
      var k :| k in LowMoodKeywords && Contains(Lower(e.content), k);
      LowerAppend(before, e.content);
      LowerAppend(before + e.content, after);
      ContainsExtended(Lower(e.content), k, Lower(before), Lower(after));
    }
  }

  lemma LowerIdempotent(s: string)
    ensures Lower(Lower(s)) == Lower(s)
  {
  }

  /** Every tag lower-cased. */
  function LowerTags(tags: Option<seq<string>>): (r: Option<seq<string>>)
    ensures r.Some? <==> tags.Some?
    ensures tags.Some? ==> |r.value| == |tags.value| && forall i :: 0 <= i < |tags.value| ==> r.value[i] == Lower(tags.value[i])
  {
    match tags
    case None => None
    case Some(ts) => Some(seq(|ts|, i requires 0 <= i < |ts| => Lower(ts[i])))
  }

  /** The test ignores letter case: lower-casing the content and the tags beforehand
      changes nothing. */
  lemma LowMoodIgnoresCase(e: CognitiveJournal.Entry)
    ensures LowMoodEntry(e) <==> LowMoodEntry(e.(content := Lower(e.content), tags := LowerTags(e.tags)))
  {
    LowerIdempotent(e.content);
    assert e.content != "" <==> Lower(e.content) != "";
    if e.tags.Some? {
      var ts, ls := e.tags.value, LowerTags(e.tags).value;
      if exists t :: t in ts && EmotionTag(t) {
        var t :| t in ts && EmotionTag(t);
        var i :| 0 <= i < |ts| && ts[i] == t;
        LowerIdempotent(t);
        assert ls[i] in ls && EmotionTag(ls[i]);
      }
      if exists t :: t in ls && EmotionTag(t) {
        var t :| t in ls && EmotionTag(t);
        var i :| 0 <= i < |ls| && ls[i] == t;
        LowerIdempotent(ts[i]);
        assert ts[i] in ts && EmotionTag(ts[i]);
      }
    }
  }

  /* ---------- recommendations ---------- */

  /** The activities the flags select, in declaration order. */
  function Candidates(hasHighBP: bool, hasLowMood: bool, acts: seq<Activity>): (r: seq<Activity>)
    ensures |r| <= |acts|
    ensures forall a :: a in r <==> a in acts && (hasHighBP ==> a.forHighBP) && (hasLowMood ==> a.forLowMood)
  {
    if acts == [] then []
    else
      assert acts == [acts[0]] + acts[1..];
      var rest := Candidates(hasHighBP, hasLowMood, acts[1..]);
      if (hasHighBP ==> acts[0].forHighBP) && (hasLowMood ==> acts[0].forLowMood) then [acts[0]] + rest
      else rest
  }

  /** The selection is a filter: it splits over concatenation, so the chosen
      activities keep their declaration order. */
  lemma {:induction false} CandidatesAppend(hasHighBP: bool, hasLowMood: bool, a: seq<Activity>, b: seq<Activity>)
    ensures Candidates(hasHighBP, hasLowMood, a + b) == Candidates(hasHighBP, hasLowMood, a) + Candidates(hasHighBP, hasLowMood, b)
  {
    if a == [] {
      assert a + b == b;
    } else {
      assert (a + b)[0] == a[0] && (a + b)[1..] == a[1..] + b;
      CandidatesAppend(hasHighBP, hasLowMood, a[1..], b);
    }
  }

  /** `getRecommendedActivities`: with a flag set, up to three of the matching
      activities in a fresh shuffle; with none, the first three of the page's shuffle. */
  method GetRecommendedActivities(hasHighBP: bool, hasLowMood: bool, shuffledActivities: seq<Activity>, choices: seq<nat>)
    returns (r: seq<Activity>)
    requires ValidChoices(choices, |Activities|)
    ensures |r| <= 3
    ensures !hasHighBP && !hasLowMood ==> r == shuffledActivities[..if |shuffledActivities| < 3 then |shuffledActivities| else 3]
    ensures hasHighBP || hasLowMood ==>
      var c := Candidates(hasHighBP, hasLowMood, Activities);
      && |r| == (if |c| < 3 then |c| else 3)
      && multiset(r) <= multiset(c)
      && forall a :: a in r ==> a in Activities && (hasHighBP ==> a.forHighBP) && (hasLowMood ==> a.forLowMood)
  {
    var recommended: seq<Activity>;
    if hasHighBP && hasLowMood {
      recommended := Candidates(true, true, Activities);
    } else if hasHighBP {
      recommended := Candidates(true, false, Activities);
    } else if hasLowMood {
      recommended := Candidates(false, true, Activities);
    } else {
      return shuffledActivities[..if |shuffledActivities| < 3 then |shuffledActivities| else 3];
    }
    r := ShuffleAndTakeThree(recommended, choices);
  }

  /** `shuffleArray(recommended).slice(0, 3)`. */
  method ShuffleAndTakeThree(recommended: seq<Activity>, choices: seq<nat>) returns (r: seq<Activity>)
    requires ValidChoices(choices, |recommended|)
    ensures |r| == if |recommended| < 3 then |recommended| else 3
    ensures multiset(r) <= multiset(recommended)
    ensures forall a :: a in r ==> a in recommended
  {
    var shuffled := ShuffleArray(recommended, choices);
    var n := if |shuffled| < 3 then |shuffled| else 3;
    r := shuffled[..n];
    assert shuffled == r + shuffled[n..];
    assert multiset(shuffled) == multiset(r) + multiset(shuffled[n..]);
    forall a | a in r ensures a in recommended {
      assert a in multiset(shuffled);
    }
  }

  /** How many activities each combination of flags can offer. */
  lemma CandidateCounts()
    ensures |Candidates(true, true, Activities)| == 3
    ensures |Candidates(true, false, Activities)| == 4
    ensures |Candidates(false, true, Activities)| == 6
  {
  }
}
