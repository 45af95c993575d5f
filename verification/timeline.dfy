/** The emotional timeline chart (src/components/CognitiveTimelineGraph.jsx):
    logs of emoji marks are sorted by date, flattened into (date, emoji,
    intensity) points, and pivoted into one chart row per date holding the
    intensity of each emoji seen that day. */
module Timeline {
  import opened Lists
  import opened Ordering

  /** One `{ emoji, intensity }` mark of a log. */
  datatype EmojiMark = EmojiMark(emoji: string, intensity: int)

  /** A `cognitiveLogs` record: its ISO date and its marks. */
  datatype TimelineLog = TimelineLog(date: string, emojis: seq<EmojiMark>)

  /** A flattened item: the log's display date, one emoji and its intensity. */
  datatype Point = Point(date: string, emoji: string, intensity: int)

  /** A chart row: the display date it stands for and a value per emoji. */
  datatype ChartRow = ChartRow(date: string, values: map<string, int>)

  function LogDate(log: TimelineLog): string {
    log.date
  }

  /** `sort((a, b) => new Date(a.date) - new Date(b.date))`: oldest first. */
  function OldestFirst(logs: seq<TimelineLog>): (r: seq<TimelineLog>)
    ensures Sorted(r, AscendingBy(LogDate))
    ensures multiset(r) == multiset(logs)
  {
    AscendingByIsPreorder(LogDate);
    Sort(logs, AscendingBy(LogDate))
  }

  /** The points of one log, in the order of its marks; `localeDate` is `toLocaleDateString`. */
  function LogPoints(log: TimelineLog, localeDate: string -> string): (r: seq<Point>)
    ensures |r| == |log.emojis|
    ensures forall k :: 0 <= k < |r| ==> r[k] == Point(localeDate(log.date), log.emojis[k].emoji, log.emojis[k].intensity)
  {
    seq(|log.emojis|, k requires 0 <= k < |log.emojis| => Point(localeDate(log.date), log.emojis[k].emoji, log.emojis[k].intensity))
  }

  /** The number of marks over all logs. */
  function MarkCount(logs: seq<TimelineLog>): nat {
    if logs == [] then 0 else MarkCount(logs[..|logs| - 1]) + |logs[|logs| - 1].emojis|
  }

  /** `flatMap`: the points of each log, log after log. */
  function Flatten(logs: seq<TimelineLog>, localeDate: string -> string): (r: seq<Point>)
    ensures |r| == MarkCount(logs)
  {
    if logs == [] then [] else Flatten(logs[..|logs| - 1], localeDate) + LogPoints(logs[|logs| - 1], localeDate)
  }

  /** Flattening one more log appends that log's points. */
  lemma FlattenSnoc(s: seq<TimelineLog>, log: TimelineLog, localeDate: string -> string)
    ensures Flatten(s + [log], localeDate) == Flatten(s, localeDate) + LogPoints(log, localeDate)
  {
    assert (s + [log])[..|s + [log]| - 1] == s;
  }

  /** Flattening distributes over concatenation: items keep the order of their logs. */
  lemma {:induction false} FlattenAppend(a: seq<TimelineLog>, b: seq<TimelineLog>, localeDate: string -> string)
    ensures Flatten(a + b, localeDate) == Flatten(a, localeDate) + Flatten(b, localeDate)
    decreases |b|
  {
    if b == [] {
      assert a + b == a;
    } else {
      var init, last := b[..|b| - 1], b[|b| - 1];
      assert a + b == (a + init) + [last];
      assert b == init + [last];
      FlattenAppend(a, init, localeDate);
      FlattenSnoc(a + init, last, localeDate);
      FlattenSnoc(init, last, localeDate);
    }
  }

  function Emojis(points: seq<Point>): (r: seq<string>)
    ensures |r| == |points| && forall k :: 0 <= k < |points| ==> r[k] == points[k].emoji
  {
    seq(|points|, k requires 0 <= k < |points| => points[k].emoji)
  }

  function Dates(points: seq<Point>): (r: seq<string>)
    ensures |r| == |points| && forall k :: 0 <= k < |points| ==> r[k] == points[k].date
  {
    seq(|points|, k requires 0 <= k < |points| => points[k].date)
  }

  /** `Array.from(new Set(flattened.map((item) => item.emoji)))`. */
  function EmojiSet(points: seq<Point>): (r: seq<string>)
    ensures NoDup(r)
    ensures forall e :: e in r <==> exists k :: 0 <= k < |points| && points[k].emoji == e
  {
    var r := Distinct(Emojis(points));
    assert forall e :: e in Emojis(points) <==> exists k :: 0 <= k < |points| && points[k].emoji == e;
    r
  }

  /** The values the pivot stores for `date`: each point of that date, in order, sets
      its emoji's value, so a later point overwrites an earlier one. */
  function Values(points: seq<Point>, date: string): map<string, int> {
    if points == [] then map[]
    else
      var m := Values(points[..|points| - 1], date);
      var last := points[|points| - 1];
      if last.date == date then m[last.emoji := last.intensity] else m
  }

  /** A date's row holds exactly the emojis marked on that date, each with the
      intensity of its last point. */
  lemma {:induction false} ValuesAreLastIntensities(points: seq<Point>, date: string, e: string)
    ensures e in Values(points, date) <==> exists k :: 0 <= k < |points| && points[k].date == date && points[k].emoji == e
    ensures forall k ::
      (0 <= k < |points| && points[k].date == date && points[k].emoji == e &&
       (forall l :: k < l < |points| ==> !(points[l].date == date && points[l].emoji == e))) ==>
      (e in Values(points, date) && Values(points, date)[e] == points[k].intensity)
  {
    if points != [] {
      var init := points[..|points| - 1];
      ValuesAreLastIntensities(init, date, e);
      assert forall k :: 0 <= k < |init| ==> init[k] == points[k];
    }
  }

  /** One pivot step: a new date gets an empty row (keeping insertion order), then the
      point's emoji value is set. */
  lemma PivotStep(points: seq<Point>, i: nat)
    requires i < |points|
    ensures Dates(points[..i + 1]) == Dates(points[..i]) + [points[i].date]
    ensures forall d ::
      Values(points[..i + 1], d) == (if d == points[i].date then Values(points[..i], d)[points[i].emoji := points[i].intensity] else Values(points[..i], d))
  {
    assert points[..i + 1][..i] == points[..i];
  }

  /** The state of the pivot after the first `i` points: `order` lists the `Map`'s keys
      in insertion order and `acc` holds each key's row values. */
  ghost predicate Pivoted(points: seq<Point>, i: nat, order: seq<string>, acc: map<string, map<string, int>>) {
    && i <= |points|
    && order == Distinct(Dates(points[..i]))
    && (forall d :: d in acc <==> d in order)
    && (forall d :: d in acc ==> acc[d] == Values(points[..i], d))
    && (forall d :: d !in acc ==> Values(points[..i], d) == map[])
  }

  /** One `reduce` step: a new date gets a `{ date }` row, then the point's emoji is set. */
  method PivotPoint(points: seq<Point>, i: nat, order: seq<string>, acc: map<string, map<string, int>>)
    returns (order': seq<string>, acc': map<string, map<string, int>>)
    requires i < |points| && Pivoted(points, i, order, acc)
    ensures Pivoted(points, i + 1, order', acc')
  {
    var item := points[i];
    ghost var seen := Dates(points[..i]);
    PivotStep(points, i);
    DistinctSnoc(seen, item.date);
    assert item.date in acc <==> item.date in seen;
    if item.date !in acc {
      order' := order + [item.date];
      acc' := acc[item.date := map[item.emoji := item.intensity]];
    } else {
      order' := order;
      acc' := acc[item.date := acc[item.date][item.emoji := item.intensity]];
    }
    forall d | d in acc'
      ensures acc'[d] == Values(points[..i + 1], d)
    {
      if d != item.date {
        assert acc'[d] == acc[d];
      }
    }
  }

  /** The `reduce` into a `Map` and `Array.from(map.values())`: one row per distinct
      date in order of first appearance, with the pivoted values. */
  method ChartData(points: seq<Point>) returns (chart: seq<ChartRow>)
    ensures |chart| == |Distinct(Dates(points))|
    ensures forall k :: 0 <= k < |chart| ==>
      chart[k].date == Distinct(Dates(points))[k] && chart[k].values == Values(points, chart[k].date)
  {
    var order: seq<string> := [];
    var acc: map<string, map<string, int>> := map[];
    var i := 0;
    assert points[..0] == [];
    while i < |points|
      invariant Pivoted(points, i, order, acc)
    {
      order, acc := PivotPoint(points, i, order, acc);
      i := i + 1;
    }
    assert points[..i] == points;
    chart := seq(|order|, k requires 0 <= k < |order| => ChartRow(order[k], acc[order[k]]));
  }

  /** What the component draws from the stored logs: the emoji lines and the chart rows. */
  method Render(data: seq<TimelineLog>, localeDate: string -> string) returns (emojiSet: seq<string>, chart: seq<ChartRow>)
    ensures emojiSet == EmojiSet(Flatten(OldestFirst(data), localeDate))
    ensures |chart| == |Distinct(Dates(Flatten(OldestFirst(data), localeDate)))|
    ensures forall k :: 0 <= k < |chart| ==>
      chart[k].date == Distinct(Dates(Flatten(OldestFirst(data), localeDate)))[k] &&
      chart[k].values == Values(Flatten(OldestFirst(data), localeDate), chart[k].date)
  {
    var logs := OldestFirst(data);
    var flattened := Flatten(logs, localeDate);
    emojiSet := EmojiSet(flattened);
    chart := ChartData(flattened);
  }
}
