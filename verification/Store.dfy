/**
 Reading a log into named timelines of named series, the bounds over all of them and the queries on
 one of them. A range has a start and an end; an event is kept as a range of length 0.
 */
module Store {
  import opened Ranges
  import Events

  datatype Kind = Range | EventStr | EventInt

  /** A line of the log: matched by one of the three data patterns, or not. */
  datatype Line =
    | RangeLine(timeline: string, series: string, value: string, start: int, end: int)
    | EventStrLine(timeline: string, series: string, value: string, at: int)
    | EventIntLine(timeline: string, series: string, value: string, at: int)
    | Other
  {
    predicate IsData() {
      !Other?
    }

    function Kind(): Kind
      requires IsData()
    {
      if RangeLine? then Range else if EventStrLine? then EventStr else EventInt
    }

    function Item(): DataRange
      requires IsData()
    {
      if RangeLine? then DataRange(start, end, value) else DataRange(at, at, value)
    }
  }

  datatype Named<+T> = Named(name: string, value: T)

  type Series = seq<Named<seq<DataRange>>>

  datatype Timeline = Timeline(ranges: Series, eventStr: Series, eventInt: Series)

  const NEW_TIMELINE := Timeline([], [], [])

  function SeriesOf(t: Timeline, kind: Kind): Series {
    match kind
    case Range => t.ranges
    case EventStr => t.eventStr
    case EventInt => t.eventInt
  }

  function WithSeries(t: Timeline, kind: Kind, s: Series): Timeline {
    match kind
    case Range => t.(ranges := s)
    case EventStr => t.(eventStr := s)
    case EventInt => t.(eventInt := s)
  }

  // ----- Named lists

  predicate Distinct<T>(xs: seq<Named<T>>) {
    forall i, j :: 0 <= i < j < |xs| ==> xs[i].name != xs[j].name
  }

  /** The value stored under `name`, or `empty` if there is none. */
  function Lookup<T>(xs: seq<Named<T>>, name: string, empty: T): T {
    if xs == [] then empty
    else if xs[0].name == name then xs[0].value
    else Lookup(xs[1..], name, empty)
  }

  /** `xs` with `v` under `name`. */
  function Put<T>(xs: seq<Named<T>>, name: string, v: T): seq<Named<T>> {
    if xs == [] then [Named(name, v)]
    else if xs[0].name == name then [Named(name, v)] + xs[1..]
    else [xs[0]] + Put(xs[1..], name, v)
  }

  lemma {:induction false} LookupPut<T>(xs: seq<Named<T>>, name: string, v: T, other: string, empty: T)
    ensures Lookup(Put(xs, name, v), other, empty) == if other == name then v else Lookup(xs, other, empty)
    decreases |xs|
  {
    if xs != [] && xs[0].name != name {
      LookupPut(xs[1..], name, v, other, empty);
      assert Put(xs, name, v)[1..] == Put(xs[1..], name, v);
    } else {
      assert Put(xs, name, v)[1..] == if xs == [] then [] else xs[1..];
    }
  }

  lemma {:induction false} NamesOfPut<T>(xs: seq<Named<T>>, name: string, v: T, i: nat)
    requires i < |Put(xs, name, v)|
    ensures |xs| <= |Put(xs, name, v)|
    ensures Put(xs, name, v)[i].name == if i < |xs| then xs[i].name else name
    ensures i >= |xs| ==> forall j :: 0 <= j < |xs| ==> xs[j].name != name
    decreases |xs|
  {
    if xs != [] && xs[0].name != name {
      assert Put(xs, name, v)[1..] == Put(xs[1..], name, v);
      NamesOfPut(xs[1..], name, v, if i == 0 then 0 else i - 1);
      assert forall j :: 0 < j < |xs| ==> xs[j] == xs[1..][j - 1];
    }
  }

  lemma {:induction false} PutGrows<T>(xs: seq<Named<T>>, name: string, v: T)
    ensures |xs| <= |Put(xs, name, v)| <= |xs| + 1
    decreases |xs|
  {
    if xs != [] && xs[0].name != name {
      PutGrows(xs[1..], name, v);
    }
  }

  lemma PutDistinct<T>(xs: seq<Named<T>>, name: string, v: T)
    requires Distinct(xs)
    ensures Distinct(Put(xs, name, v))
  {
    var ys := Put(xs, name, v);
    PutGrows(xs, name, v);
    forall i, j | 0 <= i < j < |ys|
      ensures ys[i].name != ys[j].name
    {
      NamesOfPut(xs, name, v, i);
      NamesOfPut(xs, name, v, j);
    }
  }

  /** A sum over the values of a named list. */
  function Sum<T>(f: T -> nat, xs: seq<Named<T>>): nat {
    if xs == [] then 0 else f(xs[0].value) + Sum(f, xs[1..])
  }

  lemma {:induction false} SumPut<T>(f: T -> nat, xs: seq<Named<T>>, name: string, v: T, empty: T)
    requires f(empty) == 0
    ensures Sum(f, Put(xs, name, v)) + f(Lookup(xs, name, empty)) == Sum(f, xs) + f(v)
    decreases |xs|
  {
    if xs != [] && xs[0].name != name {
      SumPut(f, xs[1..], name, v, empty);
      assert Put(xs, name, v)[1..] == Put(xs[1..], name, v);
    } else {
      assert Put(xs, name, v)[1..] == if xs == [] then [] else xs[1..];
    }
  }

  /** `i` is the position of the entry for `name` in `ys`, which is `xs` with `empty` appended under
      that name if it was missing. */
  predicate Slot<T(==)>(xs: seq<Named<T>>, ys: seq<Named<T>>, name: string, empty: T, i: nat) {
    && (forall k :: 0 <= k < i && k < |xs| ==> xs[k].name != name)
    && ((i < |xs| && xs[i].name == name && ys == xs) || (i == |xs| && ys == xs + [Named(name, empty)]))
  }

  /** Writing to the slot is putting into the list. */
  lemma {:induction false} SlotIsPut<T>(xs: seq<Named<T>>, ys: seq<Named<T>>, name: string, empty: T, i: nat, v: T)
    requires Slot(xs, ys, name, empty, i)
    ensures i < |ys| && ys[i] == Named(name, Lookup(xs, name, empty))
    ensures ys[i := Named(name, v)] == Put(xs, name, v)
    decreases |xs|
  {
    if xs != [] && xs[0].name != name {
      SlotIsPut(xs[1..], ys[1..], name, empty, i - 1, v);
      assert ys[i := Named(name, v)] == [ys[0]] + ys[1..][i - 1 := Named(name, v)];
    }
  }

  /** Get or create: a linear search by name that appends a fresh entry when it finds none. The
      result is the list and the position of the entry. */
  method GetOrCreate<T(==)>(xs: seq<Named<T>>, name: string, empty: T) returns (ys: seq<Named<T>>, i: nat)
    ensures Slot(xs, ys, name, empty, i)
  {
    for k := 0 to |xs|
      invariant forall j :: 0 <= j < k ==> xs[j].name != name
    {
      if xs[k].name == name {
        return xs, k;
      }
    }
    ys, i := xs + [Named(name, empty)], |xs|;
  }

  // ----- Reading the log

  function AddItem(t: Timeline, line: Line): Timeline
    requires line.IsData()
  {
    var s := SeriesOf(t, line.Kind());
    WithSeries(t, line.Kind(), Put(s, line.series, Lookup(s, line.series, []) + [line.Item()]))
  }

  function AddLine(ts: seq<Named<Timeline>>, line: Line): seq<Named<Timeline>> {
    match line
    case Other => ts
    case _ => Put(ts, line.timeline, AddItem(Lookup(ts, line.timeline, NEW_TIMELINE), line))
  }

  function AddLines(log: seq<Line>): seq<Named<Timeline>> {
    if log == [] then [] else AddLine(AddLines(log[..|log| - 1]), log[|log| - 1])
  }

  /** The items of the log that belong to one series of one timeline, in file order. */
  function Matching(log: seq<Line>, kind: Kind, timeline: string, series: string): seq<DataRange> {
    if log == [] then []
    else
      var line, rest := log[|log| - 1], Matching(log[..|log| - 1], kind, timeline, series);
      if line.IsData() && line.Kind() == kind && line.timeline == timeline && line.series == series
      then rest + [line.Item()]
      else rest
  }

  function MatchedLines(log: seq<Line>): nat {
    if log == [] then 0 else MatchedLines(log[..|log| - 1]) + if log[|log| - 1].IsData() then 1 else 0
  }

  function Items(ts: seq<Named<Timeline>>, kind: Kind, timeline: string, series: string): seq<DataRange> {
    Lookup(SeriesOf(Lookup(ts, timeline, NEW_TIMELINE), kind), series, [])
  }

  function Length(items: seq<DataRange>): nat {
    |items|
  }

  function TimelineSize(t: Timeline): nat {
    Sum(Length, t.ranges) + Sum(Length, t.eventStr) + Sum(Length, t.eventInt)
  }

  /** All names are distinct: timelines, and series of each kind within a timeline. */
  predicate WellNamed(ts: seq<Named<Timeline>>) {
    && Distinct(ts)
    && forall i :: 0 <= i < |ts| ==> DistinctSeries(ts[i].value)
  }

  predicate DistinctSeries(t: Timeline) {
    Distinct(t.ranges) && Distinct(t.eventStr) && Distinct(t.eventInt)
  }

  class Timelines {
    var timelines: seq<Named<Timeline>>

    constructor ()
      ensures timelines == []
    {
      timelines := [];
    }

    /** One line of the log: find or create its timeline, find or create its series there, append. */
    method Read(line: Line)
      modifies this
      ensures timelines == AddLine(old(timelines), line)
    {
      if line.IsData() {
        var ts, i := GetOrCreate(timelines, line.timeline, NEW_TIMELINE);
        SlotIsPut(timelines, ts, line.timeline, NEW_TIMELINE, i,
          AddItem(Lookup(timelines, line.timeline, NEW_TIMELINE), line));
        var t := ts[i].value;
        var ss, j := GetOrCreate(SeriesOf(t, line.Kind()), line.series, []);
        SlotIsPut(SeriesOf(t, line.Kind()), ss, line.series, [], j,
          Lookup(SeriesOf(t, line.Kind()), line.series, []) + [line.Item()]);
        ss := ss[j := Named(line.series, ss[j].value + [line.Item()])];
        timelines := ts[i := Named(line.timeline, WithSeries(t, line.Kind(), ss))];
      }
    }
  }

  method ReadData(log: seq<Line>) returns (t: Timelines)
    ensures fresh(t) && t.timelines == AddLines(log)
  {
    t := new Timelines();
    for i := 0 to |log|
      invariant fresh(t) && t.timelines == AddLines(log[..i])
    {
      t.Read(log[i]);
      assert log[..i + 1][..i] == log[..i];
    }
    assert log[..|log|] == log;
  }

  // ----- Grouping conserves the data

  /** Each series holds exactly its lines, in file order. */
  lemma {:induction false} SeriesHoldTheirLines(log: seq<Line>, kind: Kind, timeline: string, series: string)
    ensures Items(AddLines(log), kind, timeline, series) == Matching(log, kind, timeline, series)
  {
    if log != [] {
      var before, line := AddLines(log[..|log| - 1]), log[|log| - 1];
      SeriesHoldTheirLines(log[..|log| - 1], kind, timeline, series);
      if line.IsData() {
        var t := Lookup(before, line.timeline, NEW_TIMELINE);
        LookupPut(before, line.timeline, AddItem(t, line), timeline, NEW_TIMELINE);
        var s := SeriesOf(t, line.Kind());
        LookupPut(s, line.series, Lookup(s, line.series, []) + [line.Item()], series, []);
      }
    }
  }

  /** The items of a log that are recorded by lines of each kind. */
  lemma {:induction false} InMatching(log: seq<Line>, kind: Kind, timeline: string, series: string, x: DataRange)
    ensures x in Matching(log, kind, timeline, series) <==> exists i ::
      && 0 <= i < |log| && log[i].IsData() && log[i].Kind() == kind
      && log[i].timeline == timeline && log[i].series == series && log[i].Item() == x
  {
    if log != [] {
      var k := |log| - 1;
      InMatching(log[..k], kind, timeline, series, x);
      assert forall i :: 0 <= i < k ==> log[..k][i] == log[i];
    }
  }

  /** The line that records `x` as an item of this kind. */
  function LineOf(kind: Kind, timeline: string, series: string, x: DataRange): Line {
    match kind
    case Range => RangeLine(timeline, series, x.value, x.start, x.end)
    case EventStr => EventStrLine(timeline, series, x.value, x.start)
    case EventInt => EventIntLine(timeline, series, x.value, x.start)
  }

  lemma {:induction false} InItems(log: seq<Line>, kind: Kind, timeline: string, series: string, x: DataRange)
    ensures x in Items(AddLines(log), kind, timeline, series) <==>
      LineOf(kind, timeline, series, x) in log && (kind == Range || x.start == x.end)
  {
    SeriesHoldTheirLines(log, kind, timeline, series);
    InMatching(log, kind, timeline, series, x);
    var line := LineOf(kind, timeline, series, x);
    if line in log && (kind == Range || x.start == x.end) {
      var i :| 0 <= i < |log| && log[i] == line;
      assert log[i].Kind() == kind && log[i].Item() == x;
    }
  }

  /** Every line is found in the series of its own kind, and nothing else is: ranges with their start
      and end, events of the two kinds apart. */
  lemma {:induction false} StoredByKind(log: seq<Line>, timeline: string, series: string, x: DataRange)
    ensures
      var t := Lookup(AddLines(log), timeline, NEW_TIMELINE);
      && (x in Lookup(t.ranges, series, []) <==> RangeLine(timeline, series, x.value, x.start, x.end) in log)
      && (x in Lookup(t.eventStr, series, []) <==>
            x.start == x.end && EventStrLine(timeline, series, x.value, x.start) in log)
      && (x in Lookup(t.eventInt, series, []) <==>
            x.start == x.end && EventIntLine(timeline, series, x.value, x.start) in log)
  {
    InItems(log, Range, timeline, series, x);
    InItems(log, EventStr, timeline, series, x);
    InItems(log, EventInt, timeline, series, x);
  }

  lemma {:induction false} LookupIsStored<T>(xs: seq<Named<T>>, name: string, empty: T)
    ensures Lookup(xs, name, empty) == empty || exists i :: 0 <= i < |xs| && xs[i].value == Lookup(xs, name, empty)
  {
    if xs != [] {
      if xs[0].name != name {
        LookupIsStored(xs[1..], name, empty);
        if i :| 0 <= i < |xs[1..]| && xs[1..][i].value == Lookup(xs[1..], name, empty) {
          assert xs[i + 1].value == Lookup(xs, name, empty);
        }
      }
    }
  }

  lemma {:induction false} ValuesOfPut<T>(xs: seq<Named<T>>, name: string, v: T, i: nat)
    requires i < |Put(xs, name, v)|
    ensures Put(xs, name, v)[i].value == v || (i < |xs| && Put(xs, name, v)[i] == xs[i])
    decreases |xs|
  {
    if xs != [] && xs[0].name != name && i > 0 {
      assert Put(xs, name, v)[1..] == Put(xs[1..], name, v);
      ValuesOfPut(xs[1..], name, v, i - 1);
    }
  }

  lemma AddItemDistinct(t: Timeline, line: Line)
    requires DistinctSeries(t) && line.IsData()
    ensures DistinctSeries(AddItem(t, line))
  {
    var s := SeriesOf(t, line.Kind());
    PutDistinct(s, line.series, Lookup(s, line.series, []) + [line.Item()]);
  }

  /** Timelines are named apart, and so are the series of each kind within a timeline. */
  lemma {:induction false} NamesStayDistinct(log: seq<Line>)
    ensures WellNamed(AddLines(log))
  {
    if log != [] {
      var before, line := AddLines(log[..|log| - 1]), log[|log| - 1];
      NamesStayDistinct(log[..|log| - 1]);
      if line.IsData() {
        var t := Lookup(before, line.timeline, NEW_TIMELINE);
        LookupIsStored(before, line.timeline, NEW_TIMELINE);
        AddItemDistinct(t, line);
        PutDistinct(before, line.timeline, AddItem(t, line));
        forall i | 0 <= i < |AddLines(log)|
          ensures DistinctSeries(AddLines(log)[i].value)
        {
          ValuesOfPut(before, line.timeline, AddItem(t, line), i);
        }
      }
    }
  }

  lemma AddItemSize(t: Timeline, line: Line)
    requires line.IsData()
    ensures TimelineSize(AddItem(t, line)) == TimelineSize(t) + 1
  {
    var s := SeriesOf(t, line.Kind());
    SumPut(Length, s, line.series, Lookup(s, line.series, []) + [line.Item()], []);
  }

  /** As many items are stored as lines were matched. */
  lemma {:induction false} NothingLost(log: seq<Line>)
    ensures Sum(TimelineSize, AddLines(log)) == MatchedLines(log)
  {
    if log != [] {
      var before, line := AddLines(log[..|log| - 1]), log[|log| - 1];
      NothingLost(log[..|log| - 1]);
      if line.IsData() {
        var t := Lookup(before, line.timeline, NEW_TIMELINE);
        AddItemSize(t, line);
        SumPut(TimelineSize, before, line.timeline, AddItem(t, line), NEW_TIMELINE);
      }
    }
  }

  // ----- Stored series are those of the log

  lemma {:induction false} LookupAt<T>(xs: seq<Named<T>>, i: nat, empty: T)
    requires Distinct(xs) && i < |xs|
    ensures Lookup(xs, xs[i].name, empty) == xs[i].value
  {
    if i > 0 {
      assert xs[0].name != xs[i].name;
      LookupAt(xs[1..], i - 1, empty);
    }
  }

  lemma StoredSeries(log: seq<Line>, kind: Kind, i: nat, j: nat)
    requires i < |AddLines(log)| && j < |SeriesOf(AddLines(log)[i].value, kind)|
    ensures
      var t := AddLines(log)[i];
      var s := SeriesOf(t.value, kind)[j];
      s.value == Matching(log, kind, t.name, s.name)
  {
    var ts := AddLines(log);
    NamesStayDistinct(log);
    LookupAt(ts, i, NEW_TIMELINE);
    LookupAt(SeriesOf(ts[i].value, kind), j, []);
    SeriesHoldTheirLines(log, kind, ts[i].name, SeriesOf(ts[i].value, kind)[j].name);
  }

  // ----- The times in the store

  /** Which times of a series: all starts, all ends, or the end of its last item. */
  datatype Edge = Start | End | LastEnd

  function Times(e: Edge, items: seq<DataRange>): set<int> {
    match e
    case Start => set k | 0 <= k < |items| :: items[k].start
    case End => set k | 0 <= k < |items| :: items[k].end
    case LastEnd => if items == [] then {} else {items[|items| - 1].end}
  }

  function SeriesTimes(e: Edge, s: Series): set<int> {
    if s == [] then {} else Times(e, s[0].value) + SeriesTimes(e, s[1..])
  }

  function TimelineTimes(e: Edge, t: Timeline): set<int> {
    SeriesTimes(e, t.ranges) + SeriesTimes(e, t.eventStr) + SeriesTimes(e, t.eventInt)
  }

  function AllTimes(e: Edge, ts: seq<Named<Timeline>>): set<int> {
    if ts == [] then {} else TimelineTimes(e, ts[0].value) + AllTimes(e, ts[1..])
  }

  lemma {:induction false} SeriesTimesSnoc(e: Edge, s: Series, i: nat)
    requires i < |s|
    ensures SeriesTimes(e, s[..i + 1]) == SeriesTimes(e, s[..i]) + Times(e, s[i].value)
  {
    if i == 0 {
      assert s[..1][1..] == [] && s[..0] == [];
    } else {
      assert s[..i + 1][1..] == s[1..][..i] && s[..i][1..] == s[1..][..i - 1];
      SeriesTimesSnoc(e, s[1..], i - 1);
    }
  }

  lemma {:induction false} AllTimesSnoc(e: Edge, ts: seq<Named<Timeline>>, i: nat)
    requires i < |ts|
    ensures AllTimes(e, ts[..i + 1]) == AllTimes(e, ts[..i]) + TimelineTimes(e, ts[i].value)
  {
    if i == 0 {
      assert ts[..1][1..] == [] && ts[..0] == [];
    } else {
      assert ts[..i + 1][1..] == ts[1..][..i] && ts[..i][1..] == ts[1..][..i - 1];
      AllTimesSnoc(e, ts[1..], i - 1);
    }
  }

  function TimeOf(e: Edge, item: DataRange): int {
    if e.Start? then item.start else item.end
  }

  lemma TimesAppend(e: Edge, items: seq<DataRange>, item: DataRange)
    requires !e.LastEnd?
    ensures Times(e, items + [item]) == Times(e, items) + {TimeOf(e, item)}
  {
    var more := items + [item];
    assert more[|items|] == item;
    assert forall k :: 0 <= k < |items| ==> more[k] == items[k];
  }

  lemma {:induction false} SeriesTimesPut(e: Edge, s: Series, name: string, item: DataRange)
    requires !e.LastEnd?
    ensures SeriesTimes(e, Put(s, name, Lookup(s, name, []) + [item])) == SeriesTimes(e, s) + {TimeOf(e, item)}
    decreases |s|
  {
    TimesAppend(e, Lookup(s, name, []), item);
    if s == [] {
      assert Put(s, name, [] + [item])[1..] == [];
    } else if s[0].name == name {
      assert Put(s, name, s[0].value + [item])[1..] == s[1..];
    } else {
      SeriesTimesPut(e, s[1..], name, item);
      assert Put(s, name, Lookup(s, name, []) + [item])[1..] == Put(s[1..], name, Lookup(s[1..], name, []) + [item]);
    }
  }

  lemma AddItemTimes(e: Edge, t: Timeline, line: Line)
    requires !e.LastEnd? && line.IsData()
    ensures TimelineTimes(e, AddItem(t, line)) == TimelineTimes(e, t) + {TimeOf(e, line.Item())}
  {
    SeriesTimesPut(e, SeriesOf(t, line.Kind()), line.series, line.Item());
  }

  lemma {:induction false} AllTimesPut(e: Edge, ts: seq<Named<Timeline>>, name: string, t: Timeline, x: int)
    requires TimelineTimes(e, t) == TimelineTimes(e, Lookup(ts, name, NEW_TIMELINE)) + {x}
    ensures AllTimes(e, Put(ts, name, t)) == AllTimes(e, ts) + {x}
    decreases |ts|
  {
    if ts == [] {
      assert Put(ts, name, t)[1..] == [];
    } else if ts[0].name == name {
      assert Put(ts, name, t)[1..] == ts[1..];
    } else {
      AllTimesPut(e, ts[1..], name, t, x);
      assert Put(ts, name, t)[1..] == Put(ts[1..], name, t);
    }
  }

  function LogTimes(e: Edge, log: seq<Line>): set<int> {
    set i | 0 <= i < |log| && log[i].IsData() :: TimeOf(e, log[i].Item())
  }

  lemma LogTimesSnoc(e: Edge, log: seq<Line>)
    requires log != []
    ensures
      var k := |log| - 1;
      LogTimes(e, log) == LogTimes(e, log[..k]) + if log[k].IsData() then {TimeOf(e, log[k].Item())} else {}
  {
    var k := |log| - 1;
    assert forall i :: 0 <= i < k ==> log[..k][i] == log[i];
  }

  /** The starts and the ends in the store are those in the log. */
  lemma {:induction false} StoredTimes(e: Edge, log: seq<Line>)
    requires !e.LastEnd?
    ensures AllTimes(e, AddLines(log)) == LogTimes(e, log)
  {
    if log != [] {
      var k := |log| - 1;
      var before, line := AddLines(log[..k]), log[k];
      StoredTimes(e, log[..k]);
      LogTimesSnoc(e, log);
      if line.IsData() {
        var t := Lookup(before, line.timeline, NEW_TIMELINE);
        AddItemTimes(e, t, line);
        AllTimesPut(e, before, line.timeline, AddItem(t, line), TimeOf(e, line.Item()));
      }
    }
  }

  // ----- Bounds

  predicate SortedByStart(items: seq<DataRange>) {
    forall i, j :: 0 <= i <= j < |items| ==> items[i].start <= items[j].start
  }

  predicate SortedSeries(s: Series) {
    forall i :: 0 <= i < |s| ==> SortedByStart(s[i].value)
  }

  predicate SortedTimeline(t: Timeline) {
    SortedSeries(t.ranges) && SortedSeries(t.eventStr) && SortedSeries(t.eventInt)
  }

  /** `lo` is the least of `times` and 0. */
  predicate Least(lo: int, times: set<int>) {
    lo <= 0 && (forall t :: t in times ==> lo <= t) && (lo == 0 || lo in times)
  }

  /** `hi` is the greatest of `times` and 0. */
  predicate Greatest(hi: int, times: set<int>) {
    0 <= hi && (forall t :: t in times ==> t <= hi) && (hi == 0 || hi in times)
  }

  /** What the fold computes: the least start, and the greatest end of a last item. */
  predicate Bounds(lo: int, hi: int, starts: set<int>, lastEnds: set<int>) {
    Least(lo, starts) && Greatest(hi, lastEnds)
  }

  lemma BoundsOneMore(items: seq<DataRange>, lo: int, hi: int, starts: set<int>, lastEnds: set<int>)
    requires SortedByStart(items) && Bounds(lo, hi, starts, lastEnds)
    ensures
      var first, last := if items == [] then 0 else items[0].start, if items == [] then 0 else items[|items| - 1].end;
      Bounds(if first < lo then first else lo, if last > hi then last else hi,
             starts + Times(Start, items), lastEnds + Times(LastEnd, items))
  {
    if items != [] {
      assert items[0].start in Times(Start, items);
    }
  }

  /** Folds the bounds of the series of one kind into `(lo, hi)`. */
  method SeriesBounds(s: Series, lo0: int, hi0: int, ghost starts: set<int>, ghost lastEnds: set<int>)
    returns (lo: int, hi: int)
    requires SortedSeries(s) && Bounds(lo0, hi0, starts, lastEnds)
    ensures Bounds(lo, hi, starts + SeriesTimes(Start, s), lastEnds + SeriesTimes(LastEnd, s))
  {
    lo, hi := lo0, hi0;
    for i := 0 to |s|
      invariant Bounds(lo, hi, starts + SeriesTimes(Start, s[..i]), lastEnds + SeriesTimes(LastEnd, s[..i]))
    {
      var items := s[i].value;
      var first, last := 0, 0;
      if |items| > 0 {
        first, last := items[0].start, items[|items| - 1].end;
      }
      BoundsOneMore(items, lo, hi, starts + SeriesTimes(Start, s[..i]), lastEnds + SeriesTimes(LastEnd, s[..i]));
      SeriesTimesSnoc(Start, s, i);
      SeriesTimesSnoc(LastEnd, s, i);
      UnionAssociates(starts, SeriesTimes(Start, s[..i]), Times(Start, items));
      UnionAssociates(lastEnds, SeriesTimes(LastEnd, s[..i]), Times(LastEnd, items));
      if first < lo {
        lo := first;
      }
      if last > hi {
        hi := last;
      }
    }
    assert s[..|s|] == s;
  }

  lemma UnionAssociates(a: set<int>, b: set<int>, c: set<int>)
    ensures a + b + c == a + (b + c)
  {
  }

  method TimelineBounds(t: Timeline) returns (lo: int, hi: int)
    requires SortedTimeline(t)
    ensures Bounds(lo, hi, TimelineTimes(Start, t), TimelineTimes(LastEnd, t))
  {
    lo, hi := 0, 0;
    lo, hi := SeriesBounds(t.ranges, lo, hi, {}, {});
    assert {} + SeriesTimes(Start, t.ranges) == SeriesTimes(Start, t.ranges);
    assert {} + SeriesTimes(LastEnd, t.ranges) == SeriesTimes(LastEnd, t.ranges);
    lo, hi := SeriesBounds(t.eventStr, lo, hi, SeriesTimes(Start, t.ranges), SeriesTimes(LastEnd, t.ranges));
    lo, hi := SeriesBounds(t.eventInt, lo, hi,
                           SeriesTimes(Start, t.ranges) + SeriesTimes(Start, t.eventStr),
                           SeriesTimes(LastEnd, t.ranges) + SeriesTimes(LastEnd, t.eventStr));
  }

  lemma CombineBounds(lo: int, hi: int, starts: set<int>, lastEnds: set<int>,
                      lo': int, hi': int, starts': set<int>, lastEnds': set<int>)
    requires Bounds(lo, hi, starts, lastEnds) && Bounds(lo', hi', starts', lastEnds')
    ensures Bounds(if lo' < lo then lo' else lo, if hi' > hi then hi' else hi, starts + starts', lastEnds + lastEnds')
  {
  }

  /** The bounds over all timelines: the least start and the greatest end of a last item, or 0. */
  method GetBounds(ts: seq<Named<Timeline>>) returns (lo: int, hi: int)
    requires forall i :: 0 <= i < |ts| ==> SortedTimeline(ts[i].value)
    ensures Bounds(lo, hi, AllTimes(Start, ts), AllTimes(LastEnd, ts))
  {
    lo, hi := 0, 0;
    for i := 0 to |ts|
      invariant Bounds(lo, hi, AllTimes(Start, ts[..i]), AllTimes(LastEnd, ts[..i]))
    {
      var tLo, tHi := TimelineBounds(ts[i].value);
      AllTimesSnoc(Start, ts, i);
      AllTimesSnoc(LastEnd, ts, i);
      CombineBounds(lo, hi, AllTimes(Start, ts[..i]), AllTimes(LastEnd, ts[..i]),
                    tLo, tHi, TimelineTimes(Start, ts[i].value), TimelineTimes(LastEnd, ts[i].value));
      if tLo < lo {
        lo := tLo;
      }
      if tHi > hi {
        hi := tHi;
      }
    }
    assert ts[..|ts|] == ts;
  }

  // ----- When the bounds enclose everything

  predicate Encloses(lo: int, hi: int, times: set<int>) {
    forall t :: t in times ==> lo <= t <= hi
  }

  /** No time is above 0 and all ends of last items, and none is below 0 and all starts. */
  predicate Spanned(starts: set<int>, ends: set<int>, lastEnds: set<int>) {
    && (forall t :: t in starts + ends ==> t <= 0 || exists e :: e in lastEnds && t <= e)
    && (forall t :: t in ends ==> 0 <= t || exists s :: s in starts && s <= t)
  }

  /** The bounds enclose every start and end exactly when the times are spanned. Reversed ranges, or
      an early range that ends after the last one, can break this. */
  lemma EnclosesIff(lo: int, hi: int, starts: set<int>, ends: set<int>, lastEnds: set<int>)
    requires Bounds(lo, hi, starts, lastEnds)
    ensures Encloses(lo, hi, starts + ends) <==> Spanned(starts, ends, lastEnds)
  {
    if Encloses(lo, hi, starts + ends) {
      forall t | t in starts + ends
        ensures t <= 0 || exists e :: e in lastEnds && t <= e
      {
        assert t <= hi;
      }
      forall t | t in ends
        ensures 0 <= t || exists s :: s in starts && s <= t
      {
        assert t in starts + ends && lo <= t;
      }
    } else {
      var t :| t in starts + ends && !(lo <= t <= hi);
    }
  }

  lemma TimesSpanned(items: seq<DataRange>)
    requires InSequence(items)
    ensures Spanned(Times(Start, items), Times(End, items), Times(LastEnd, items))
  {
    if items != [] {
      var last := items[|items| - 1].end;
      assert last in Times(LastEnd, items);
      forall t | t in Times(Start, items) + Times(End, items)
        ensures t <= last
      {
        var k :| 0 <= k < |items| && (t == items[k].start || t == items[k].end);
      }
      forall t | t in Times(End, items)
        ensures exists s :: s in Times(Start, items) && s <= t
      {
        var k :| 0 <= k < |items| && t == items[k].end;
        assert items[k].start in Times(Start, items);
      }
    }
  }

  lemma SpannedUnion(a: set<int>, b: set<int>, c: set<int>, a': set<int>, b': set<int>, c': set<int>)
    requires Spanned(a, b, c) && Spanned(a', b', c')
    ensures Spanned(a + a', b + b', c + c')
  {
    forall t | t in (a + a') + (b + b')
      ensures t <= 0 || exists e :: e in c + c' && t <= e
    {
      if t > 0 {
        if t in a + b {
          var e :| e in c && t <= e;
          assert e in c + c';
        } else {
          assert t in a' + b';
          var e :| e in c' && t <= e;
          assert e in c + c';
        }
      }
    }
    forall t | t in b + b'
      ensures 0 <= t || exists s :: s in a + a' && s <= t
    {
      if t < 0 {
        if t in b {
          var s :| s in a && s <= t;
          assert s in a + a';
        } else {
          var s :| s in a' && s <= t;
          assert s in a + a';
        }
      }
    }
  }

  predicate SequencedSeries(s: Series) {
    forall i :: 0 <= i < |s| ==> InSequence(s[i].value)
  }

  predicate SequencedTimeline(t: Timeline) {
    SequencedSeries(t.ranges) && SequencedSeries(t.eventStr) && SequencedSeries(t.eventInt)
  }

  lemma {:induction false} SeriesSpanned(s: Series)
    requires SequencedSeries(s)
    ensures Spanned(SeriesTimes(Start, s), SeriesTimes(End, s), SeriesTimes(LastEnd, s))
  {
    if s != [] {
      TimesSpanned(s[0].value);
      SeriesSpanned(s[1..]);
      SpannedUnion(Times(Start, s[0].value), Times(End, s[0].value), Times(LastEnd, s[0].value),
                   SeriesTimes(Start, s[1..]), SeriesTimes(End, s[1..]), SeriesTimes(LastEnd, s[1..]));
    }
  }

  lemma TimelineSpanned(t: Timeline)
    requires SequencedTimeline(t)
    ensures Spanned(TimelineTimes(Start, t), TimelineTimes(End, t), TimelineTimes(LastEnd, t))
  {
    SeriesSpanned(t.ranges);
    SeriesSpanned(t.eventStr);
    SeriesSpanned(t.eventInt);
    SpannedUnion(SeriesTimes(Start, t.ranges), SeriesTimes(End, t.ranges), SeriesTimes(LastEnd, t.ranges),
                 SeriesTimes(Start, t.eventStr), SeriesTimes(End, t.eventStr), SeriesTimes(LastEnd, t.eventStr));
    SpannedUnion(SeriesTimes(Start, t.ranges) + SeriesTimes(Start, t.eventStr),
                 SeriesTimes(End, t.ranges) + SeriesTimes(End, t.eventStr),
                 SeriesTimes(LastEnd, t.ranges) + SeriesTimes(LastEnd, t.eventStr),
                 SeriesTimes(Start, t.eventInt), SeriesTimes(End, t.eventInt), SeriesTimes(LastEnd, t.eventInt));
  }

  lemma {:induction false} AllSpanned(ts: seq<Named<Timeline>>)
    requires forall i :: 0 <= i < |ts| ==> SequencedTimeline(ts[i].value)
    ensures Spanned(AllTimes(Start, ts), AllTimes(End, ts), AllTimes(LastEnd, ts))
    ensures AllTimes(LastEnd, ts) <= AllTimes(End, ts)
  {
    if ts != [] {
      var t := ts[0].value;
      TimelineSpanned(t);
      AllSpanned(ts[1..]);
      SpannedUnion(TimelineTimes(Start, t), TimelineTimes(End, t), TimelineTimes(LastEnd, t),
                   AllTimes(Start, ts[1..]), AllTimes(End, ts[1..]), AllTimes(LastEnd, ts[1..]));
      LastEndsAreEnds(t.ranges);
      LastEndsAreEnds(t.eventStr);
      LastEndsAreEnds(t.eventInt);
    }
  }

  lemma {:induction false} LastEndsAreEnds(s: Series)
    ensures SeriesTimes(LastEnd, s) <= SeriesTimes(End, s)
  {
    if s != [] {
      LastEndsAreEnds(s[1..]);
    }
  }

  /** A log whose one range is reversed: bounds (0, 3) leave out the stored time 10. */
  lemma ReversedRangeEscapes(lo: int, hi: int)
    requires
      var ts := AddLines([RangeLine("a", "b", "c", 10, 3)]);
      Bounds(lo, hi, AllTimes(Start, ts), AllTimes(LastEnd, ts))
    ensures lo == 0 && hi == 3
    ensures 10 in AllTimes(Start, AddLines([RangeLine("a", "b", "c", 10, 3)]))
    ensures !Encloses(lo, hi, AllTimes(Start, AddLines([RangeLine("a", "b", "c", 10, 3)])))
  {
    var item := DataRange(10, 3, "c");
    var line := RangeLine("a", "b", "c", 10, 3);
    assert [line][..0] == [];
    var t := Timeline([Named("b", [] + [item])], [], []);
    assert AddLines([line]) == AddLine([], line) == [Named("a", t)];
    assert Times(Start, [] + [item]) == {10} by {
      TimesAppend(Start, [], item);
    }
    assert SeriesTimes(Start, t.ranges) == {10} && SeriesTimes(LastEnd, t.ranges) == {3} by {
      assert t.ranges[1..] == [];
    }
    assert TimelineTimes(Start, t) == {10} && TimelineTimes(LastEnd, t) == {3};
    assert [Named("a", t)][1..] == [];
    assert 10 in AllTimes(Start, [Named("a", t)]);
  }

  // ----- Whole logs

  /** Every series of the log is in sequence: sorted by start, and no item begins before the one
      before it has ended. For events this says that they are sorted. */
  ghost predicate LogInSequence(log: seq<Line>) {
    forall kind: Kind, timeline: string, series: string :: InSequence(Matching(log, kind, timeline, series))
  }

  lemma {:induction false} StoredInSequence(log: seq<Line>)
    requires LogInSequence(log)
    ensures forall i :: 0 <= i < |AddLines(log)| ==>
              SequencedTimeline(AddLines(log)[i].value) && SortedTimeline(AddLines(log)[i].value)
  {
    var ts := AddLines(log);
    forall i, kind: Kind | 0 <= i < |ts|
      ensures SequencedSeries(SeriesOf(ts[i].value, kind)) && SortedSeries(SeriesOf(ts[i].value, kind))
    {
      var s := SeriesOf(ts[i].value, kind);
      forall j | 0 <= j < |s|
        ensures InSequence(s[j].value) && SortedByStart(s[j].value)
      {
        StoredSeries(log, kind, i, j);
        assert InSequence(Matching(log, kind, ts[i].name, s[j].name));
      }
    }
    forall i | 0 <= i < |ts|
      ensures SequencedTimeline(ts[i].value) && SortedTimeline(ts[i].value)
    {
      assert SeriesOf(ts[i].value, Range) == ts[i].value.ranges;
      assert SeriesOf(ts[i].value, EventStr) == ts[i].value.eventStr;
      assert SeriesOf(ts[i].value, EventInt) == ts[i].value.eventInt;
    }
  }

  /** Reads a log and computes its bounds: they enclose every time in the log, and each is 0 or a time
      of the log. */
  method LogBounds(log: seq<Line>) returns (lo: int, hi: int)
    requires LogInSequence(log)
    ensures forall i :: 0 <= i < |log| && log[i].IsData() ==> lo <= log[i].Item().start <= log[i].Item().end <= hi
    ensures lo == 0 || exists i :: 0 <= i < |log| && log[i].IsData() && log[i].Item().start == lo
    ensures hi == 0 || exists i :: 0 <= i < |log| && log[i].IsData() && log[i].Item().end == hi
  {
    var t := ReadData(log);
    StoredInSequence(log);
    lo, hi := GetBounds(t.timelines);
    BoundsOfLog(log, lo, hi);
  }

  /** The bounds in terms of the times of the log. */
  lemma BoundsOfTimes(log: seq<Line>, lo: int, hi: int)
    requires LogInSequence(log) && Bounds(lo, hi, AllTimes(Start, AddLines(log)), AllTimes(LastEnd, AddLines(log)))
    ensures Encloses(lo, hi, LogTimes(Start, log) + LogTimes(End, log))
    ensures (lo == 0 || lo in LogTimes(Start, log)) && (hi == 0 || hi in LogTimes(End, log))
  {
    var ts := AddLines(log);
    StoredInSequence(log);
    AllSpanned(ts);
    EnclosesIff(lo, hi, AllTimes(Start, ts), AllTimes(End, ts), AllTimes(LastEnd, ts));
    StoredTimes(Start, log);
    StoredTimes(End, log);
  }

  lemma BoundsOfLine(log: seq<Line>, lo: int, hi: int, i: nat)
    requires LogInSequence(log) && Encloses(lo, hi, LogTimes(Start, log) + LogTimes(End, log))
    requires i < |log| && log[i].IsData()
    ensures lo <= log[i].Item().start <= log[i].Item().end <= hi
  {
    assert TimeOf(Start, log[i].Item()) in LogTimes(Start, log);
    assert TimeOf(End, log[i].Item()) in LogTimes(End, log);
    ItemsMatch(log, i);
    assert InSequence(Matching(log, log[i].Kind(), log[i].timeline, log[i].series));
  }

  lemma BoundsOfLog(log: seq<Line>, lo: int, hi: int)
    requires LogInSequence(log) && Bounds(lo, hi, AllTimes(Start, AddLines(log)), AllTimes(LastEnd, AddLines(log)))
    ensures forall i :: 0 <= i < |log| && log[i].IsData() ==> lo <= log[i].Item().start <= log[i].Item().end <= hi
    ensures lo == 0 || exists i :: 0 <= i < |log| && log[i].IsData() && log[i].Item().start == lo
    ensures hi == 0 || exists i :: 0 <= i < |log| && log[i].IsData() && log[i].Item().end == hi
  {
    BoundsOfTimes(log, lo, hi);
    forall i | 0 <= i < |log| && log[i].IsData()
      ensures lo <= log[i].Item().start <= log[i].Item().end <= hi
    {
      BoundsOfLine(log, lo, hi, i);
    }
  }

  /** Every data line is among the items of its own series. */
  lemma {:induction false} ItemsMatch(log: seq<Line>, i: nat)
    requires i < |log| && log[i].IsData()
    ensures log[i].Item() in Matching(log, log[i].Kind(), log[i].timeline, log[i].series)
  {
    if i < |log| - 1 {
      ItemsMatch(log[..|log| - 1], i);
    }
  }

  /** A window query on one series of a log is the query on the lines of that series. */
  method QueryRanges(log: seq<Line>, timeline: string, series: string, start: int, end: int)
    returns (selected: seq<DataRange>)
    ensures
      var items := Matching(log, Range, timeline, series);
      && selected == Query(items, start, end)
      && (Ordered(items) ==> selected == Answer(items, start, end))
  {
    var t := ReadData(log);
    SeriesHoldTheirLines(log, Range, timeline, series);
    var r := new TimelineDataRange(Items(t.timelines, Range, timeline, series));
    selected := r.GetRanges(start, end);
  }

  /** Items of an event series as events. */
  function AsEvents(items: seq<DataRange>): seq<Events.Event> {
    seq(|items|, i requires 0 <= i < |items| => Events.Event(items[i].start, items[i].value))
  }

  method QueryEvents(log: seq<Line>, kind: Kind, timeline: string, series: string, start: int, end: int)
    returns (selected: seq<Events.Event>)
    requires kind != Range
    ensures
      var es := AsEvents(Matching(log, kind, timeline, series));
      && selected == Events.Query(es, start, end)
      && (LogInSequence(log) ==> Events.Sorted(es))
  {
    var t := ReadData(log);
    SeriesHoldTheirLines(log, kind, timeline, series);
    var e := new Events.TimelineEvent(AsEvents(Items(t.timelines, kind, timeline, series)));
    selected := e.GetEvents(start, end);
    assert LogInSequence(log) ==> InSequence(Matching(log, kind, timeline, series));
  }
}
