/**
 The throughput monitor that prints the selected flows at every tick, and the figure script that
 reads the lines back and rebuilds one sum per tick. Two monitors are covered: flows 1 and 3, and
 flows 1, 3, 4 and 5.
 */
module Trace {
  import opened Options

  datatype Layout = TwoFlows | FourFlows

  /** A flow's entry in the monitor's map, reduced to the columns that the parser reads; a printed
      line carries the same. */
  datatype Flow = Flow(id: nat, time: real, value: real)

  /** The flow map at one tick, in the order of iteration. */
  type Tick = seq<Flow>

  datatype Row = Row(time: real, goodput: real)

  predicate Ascending(flows: Tick) {
    forall i, j :: 0 <= i < j < |flows| ==> flows[i].id < flows[j].id
  }

  predicate Selected(layout: Layout, id: nat) {
    match layout
    case TwoFlows => id == 1 || id == 3
    case FourFlows => id == 1 || 3 <= id <= 5
  }

  /** The flow whose line completes a row, and the flows added up before it. */
  function Last(layout: Layout): nat {
    match layout
    case TwoFlows => 3
    case FourFlows => 5
  }

  predicate Middle(layout: Layout, id: nat) {
    layout.FourFlows? && (id == 3 || id == 4)
  }

  // ----- The emitter

  function Emitted(layout: Layout, flows: Tick): seq<Flow> {
    if flows == [] then []
    else
      var k := |flows| - 1;
      if Selected(layout, flows[k].id) then Emitted(layout, flows[..k]) + [flows[k]] else Emitted(layout, flows[..k])
  }

  /** What a monitor has printed after all ticks. */
  function Log(layout: Layout, ticks: seq<Tick>): seq<Flow> {
    if ticks == [] then [] else Log(layout, ticks[..|ticks| - 1]) + Emitted(layout, ticks[|ticks| - 1])
  }

  class Monitor {
    const layout: Layout
    var stream: seq<Flow>
    ghost var ticks: seq<Tick>

    ghost predicate Valid()
      reads this
    {
      stream == Log(layout, ticks)
    }

    constructor (layout: Layout)
      ensures Valid() && this.layout == layout && ticks == []
    {
      this.layout, stream, ticks := layout, [], [];
    }

    /** One tick: a loop over the flow map that appends to the output stream. */
    method Emit(flows: Tick)
      requires Valid()
      modifies this
      ensures Valid() && ticks == old(ticks) + [flows]
    {
      for i := 0 to |flows|
        invariant stream == old(stream) + Emitted(layout, flows[..i]) && ticks == old(ticks)
      {
        assert flows[..i + 1][..i] == flows[..i];
        if Selected(layout, flows[i].id) {
          stream := stream + [flows[i]];
        }
      }
      assert flows[..|flows|] == flows;
      ticks := ticks + [flows];
      assert ticks[..|ticks| - 1] == old(ticks);
    }
  }

  // ----- The parser

  /** A row under construction, and the rows finished so far. */
  datatype Parser = Parser(open: Option<Row>, rows: seq<Row>)

  /** One line, without the test against the finish time. */
  function Read(layout: Layout, p: Parser, line: Flow): Parser {
    if line.id == 1 && p.open.None? then p.(open := Some(Row(line.time, line.value)))
    else if Middle(layout, line.id) && p.open.Some? then
      p.(open := Some(p.open.value.(goodput := p.open.value.goodput + line.value)))
    else if line.id == Last(layout) && p.open.Some? then
      Parser(None, p.rows + [p.open.value.(goodput := p.open.value.goodput + line.value)])
    else p
  }

  function ReadAll(layout: Layout, p: Parser, lines: seq<Flow>): Parser {
    if lines == [] then p else Read(layout, ReadAll(layout, p, lines[..|lines| - 1]), lines[|lines| - 1])
  }

  const START := Parser(None, [])

  /** The rows up to and including the first that is past the finish time. */
  function Cut(rows: seq<Row>, finish: real): seq<Row> {
    if rows == [] then []
    else if rows[0].time > finish then [rows[0]]
    else [rows[0]] + Cut(rows[1..], finish)
  }

  lemma {:induction false} CutWithin(rows: seq<Row>, finish: real)
    requires forall i :: 0 <= i < |rows| ==> rows[i].time <= finish
    ensures Cut(rows, finish) == rows
  {
    if rows != [] {
      CutWithin(rows[1..], finish);
    }
  }

  lemma {:induction false} CutHere(rows: seq<Row>, row: Row, rest: seq<Row>, finish: real)
    requires forall i :: 0 <= i < |rows| ==> rows[i].time <= finish
    requires row.time > finish
    ensures Cut(rows + [row] + rest, finish) == rows + [row]
  {
    if rows != [] {
      CutHere(rows[1..], row, rest, finish);
      assert (rows + [row] + rest)[1..] == rows[1..] + [row] + rest;
    }
  }

  /** Only the last row kept can be past the finish time, and rows are dropped only after such a row. */
  lemma {:induction false} CutSpec(rows: seq<Row>, finish: real)
    ensures Cut(rows, finish) <= rows
    ensures forall i :: 0 <= i < |Cut(rows, finish)| - 1 ==> rows[i].time <= finish
    ensures Cut(rows, finish) != rows ==> var n := |Cut(rows, finish)|; n > 0 && rows[n - 1].time > finish
  {
    if rows != [] {
      CutSpec(rows[1..], finish);
      assert rows == [rows[0]] + rows[1..];
    }
  }

  /** Only the last of the rows kept can be past the finish time, and it is unless all `n` are kept. */
  predicate UpToFinish(kept: seq<Row>, n: nat, finish: real) {
    && (forall i :: 0 <= i < |kept| - 1 ==> kept[i].time <= finish)
    && (|kept| == n || (kept != [] && kept[|kept| - 1].time > finish))
  }

  lemma {:induction false} CutEnds(rows: seq<Row>, finish: real)
    ensures UpToFinish(Cut(rows, finish), |rows|, finish)
  {
    CutSpec(rows, finish);
  }

  lemma {:induction false} RowsGrow(layout: Layout, p: Parser, lines: seq<Flow>, n: nat)
    requires n <= |lines|
    ensures ReadAll(layout, p, lines[..n]).rows <= ReadAll(layout, p, lines).rows
    decreases |lines| - n
  {
    if n < |lines| {
      assert lines[..n + 1][..n] == lines[..n];
      RowsGrow(layout, p, lines, n + 1);
    } else {
      assert lines[..n] == lines;
    }
  }

  /** The script may stop at the first row past the finish time. */
  lemma ExitHere(layout: Layout, lines: seq<Flow>, n: nat, goodput: seq<Row>, row: Row, finish: real)
    requires n <= |lines| && ReadAll(layout, START, lines[..n]).rows == goodput + [row]
    requires row.time > finish && forall k :: 0 <= k < |goodput| ==> goodput[k].time <= finish
    ensures Cut(ReadAll(layout, START, lines).rows, finish) == goodput + [row]
  {
    RowsGrow(layout, START, lines, n);
    var all := ReadAll(layout, START, lines).rows;
    assert all == goodput + [row] + all[|goodput| + 1..];
    CutHere(goodput, row, all[|goodput| + 1..], finish);
  }

  /** The loop of the figure script, with its early exit. */
  method Parse(layout: Layout, lines: seq<Flow>, finish: real) returns (goodput: seq<Row>)
    ensures goodput == Cut(ReadAll(layout, START, lines).rows, finish)
  {
    goodput := [];
    var open: Option<Row> := None;
    for i := 0 to |lines|
      invariant ReadAll(layout, START, lines[..i]) == Parser(open, goodput)
      invariant forall k :: 0 <= k < |goodput| ==> goodput[k].time <= finish
    {
      var line := lines[i];
      assert lines[..i + 1][..i] == lines[..i];
      if line.id == 1 && open == None {
        open := Some(Row(line.time, line.value));
      }
      if Middle(layout, line.id) && open.Some? {
        open := Some(open.value.(goodput := open.value.goodput + line.value));
      }
      if line.id == Last(layout) && open.Some? {
        var row := open.value.(goodput := open.value.goodput + line.value);
        if row.time > finish {
          ExitHere(layout, lines, i + 1, goodput, row, finish);
          return goodput + [row];
        }
        goodput := goodput + [row];
        open := None;
      }
    }
    assert lines[..|lines|] == lines;
    CutWithin(goodput, finish);
  }

  // ----- One tick through emitter and parser

  function Find(flows: Tick, id: nat): Option<Flow> {
    if flows == [] then None
    else if flows[|flows| - 1].id == id then Some(flows[|flows| - 1])
    else Find(flows[..|flows| - 1], id)
  }

  predicate Has(flows: Tick, id: nat) {
    Find(flows, id).Some?
  }

  function Line(flows: Tick, id: nat): seq<Flow> {
    match Find(flows, id)
    case None => []
    case Some(f) => [f]
  }

  function Value(flows: Tick, id: nat): real {
    match Find(flows, id)
    case None => 0.0
    case Some(f) => f.value
  }

  function Time(flows: Tick, id: nat): real {
    match Find(flows, id)
    case None => 0.0
    case Some(f) => f.time
  }

  lemma {:induction false} FoundIsIn(flows: Tick, id: nat)
    ensures Has(flows, id) <==> exists i :: 0 <= i < |flows| && flows[i].id == id
    ensures Has(flows, id) ==> Find(flows, id).value.id == id
  {
    if flows != [] {
      FoundIsIn(flows[..|flows| - 1], id);
    }
  }

  lemma LineEmpty(flows: Tick, id: nat)
    requires forall i :: 0 <= i < |flows| ==> flows[i].id < id
    ensures Line(flows, id) == []
  {
    FoundIsIn(flows, id);
  }

  lemma LineSnoc(flows: Tick, id: nat)
    requires flows != [] && Ascending(flows)
    ensures
      var k := |flows| - 1;
      Line(flows, id) == if id < flows[k].id then Line(flows[..k], id) else if id == flows[k].id then [flows[k]] else []
    ensures flows[|flows| - 1].id <= id ==> Line(flows[..|flows| - 1], id) == []
  {
    var k := |flows| - 1;
    if flows[k].id <= id {
      LineEmpty(flows[..k], id);
    }
  }

  /** The monitor prints the selected flows that exist, by ascending id. */
  lemma {:induction false} TwoInOrder(flows: Tick)
    requires Ascending(flows)
    ensures Emitted(TwoFlows, flows) == Line(flows, 1) + Line(flows, 3)
  {
    if flows != [] {
      TwoInOrder(flows[..|flows| - 1]);
      LineSnoc(flows, 1);
      LineSnoc(flows, 3);
    }
  }

  lemma {:induction false} FourInOrder(flows: Tick)
    requires Ascending(flows)
    ensures Emitted(FourFlows, flows) == Line(flows, 1) + Line(flows, 3) + Line(flows, 4) + Line(flows, 5)
  {
    if flows != [] {
      FourInOrder(flows[..|flows| - 1]);
      LineSnoc(flows, 1);
      LineSnoc(flows, 3);
      LineSnoc(flows, 4);
      LineSnoc(flows, 5);
    }
  }

  /** The flow 1 line of this tick opens a row, if none is open. */
  function Opened(flows: Tick, open: Option<Row>): Option<Row> {
    if open.None? && Has(flows, 1) then Some(Row(Time(flows, 1), Value(flows, 1))) else open
  }

  function Plus(row: Row, v: real): Row {
    row.(goodput := row.goodput + v)
  }

  /** What the lines between flow 1 and the last flow add. */
  function MiddleSum(layout: Layout, flows: Tick, row: Row): Row {
    if layout.TwoFlows? then row else Plus(Plus(row, Value(flows, 3)), Value(flows, 4))
  }

  /** The parser over all lines of one tick. */
  function TickStep(layout: Layout, p: Parser, flows: Tick): Parser {
    var open := Opened(flows, p.open);
    if open.None? then p
    else
      var row := MiddleSum(layout, flows, open.value);
      if Has(flows, Last(layout)) then Parser(None, p.rows + [Plus(row, Value(flows, Last(layout)))])
      else p.(open := Some(row))
  }

  lemma {:induction false} ReadAllConcat(layout: Layout, p: Parser, a: seq<Flow>, b: seq<Flow>)
    ensures ReadAll(layout, p, a + b) == ReadAll(layout, ReadAll(layout, p, a), b)
    decreases |b|
  {
    if b == [] {
      assert a + b == a;
    } else {
      var k := |b| - 1;
      assert (a + b)[..|a + b| - 1] == a + b[..k];
      ReadAllConcat(layout, p, a, b[..k]);
    }
  }

  lemma ReadOne(layout: Layout, p: Parser, flows: Tick, id: nat)
    ensures ReadAll(layout, p, Line(flows, id)) == if Has(flows, id) then Read(layout, p, Find(flows, id).value) else p
  {
    if Has(flows, id) {
      assert Line(flows, id)[..0] == [];
    }
  }

  lemma ReadFirst(layout: Layout, p: Parser, flows: Tick)
    ensures ReadAll(layout, p, Line(flows, 1)) == p.(open := Opened(flows, p.open))
  {
    ReadOne(layout, p, flows, 1);
    FoundIsIn(flows, 1);
  }

  lemma ReadMiddle(p: Parser, flows: Tick, id: nat)
    requires id == 3 || id == 4
    ensures ReadAll(FourFlows, p, Line(flows, id)) ==
      if p.open.None? then p else p.(open := Some(Plus(p.open.value, Value(flows, id))))
  {
    ReadOne(FourFlows, p, flows, id);
    FoundIsIn(flows, id);
  }

  lemma ReadLast(layout: Layout, p: Parser, flows: Tick)
    ensures ReadAll(layout, p, Line(flows, Last(layout))) ==
      if p.open.None? || !Has(flows, Last(layout)) then p
      else Parser(None, p.rows + [Plus(p.open.value, Value(flows, Last(layout)))])
  {
    ReadOne(layout, p, flows, Last(layout));
    FoundIsIn(flows, Last(layout));
  }

  lemma TickThroughParser(layout: Layout, p: Parser, flows: Tick)
    requires Ascending(flows)
    ensures ReadAll(layout, p, Emitted(layout, flows)) == TickStep(layout, p, flows)
  {
    TwoInOrder(flows);
    FourInOrder(flows);
    ReadFirst(layout, p, flows);
    var p1 := p.(open := Opened(flows, p.open));
    var l1, l3, l4, l5 := Line(flows, 1), Line(flows, 3), Line(flows, 4), Line(flows, 5);
    ReadAllConcat(layout, p, l1, l3);
    match layout
    case TwoFlows =>
      ReadLast(layout, p1, flows);
    case FourFlows =>
      ReadMiddle(p1, flows, 3);
      var p3 := ReadAll(layout, p1, l3);
      ReadMiddle(p3, flows, 4);
      ReadLast(layout, ReadAll(layout, p3, l4), flows);
      ReadAllConcat(layout, p, l1 + l3, l4);
      ReadAllConcat(layout, p, l1 + l3 + l4, l5);
  }

  // ----- Whole runs

  /** The flow map is in ascending order at every tick and never loses a flow. */
  ghost predicate Growing(ticks: seq<Tick>) {
    && (forall k :: 0 <= k < |ticks| ==> Ascending(ticks[k]))
    && (forall j, k, id :: 0 <= j <= k < |ticks| && Has(ticks[j], id) ==> Has(ticks[k], id))
  }

  /** How many ticks pass before flow `id` exists. */
  function Since(ticks: seq<Tick>, id: nat): (n: nat)
    ensures n <= |ticks|
  {
    if ticks == [] || Has(ticks[0], id) then 0 else 1 + Since(ticks[1..], id)
  }

  lemma {:induction false} SinceSpec(ticks: seq<Tick>, id: nat, k: nat)
    requires Growing(ticks) && k < |ticks|
    ensures Has(ticks[k], id) <==> Since(ticks, id) <= k
    decreases |ticks|
  {
    if !Has(ticks[0], id) && k > 0 {
      assert forall j :: 0 <= j < |ticks[1..]| ==> ticks[1..][j] == ticks[j + 1];
      SinceSpec(ticks[1..], id, k - 1);
    }
  }

  /** The tick from which rows are complete: flow 1 and the last flow both exist. */
  function Ready(layout: Layout, ticks: seq<Tick>): nat {
    var a, b := Since(ticks, 1), Since(ticks, Last(layout));
    if a <= b then b else a
  }

  /** The sum of the selected flows of one tick, in the parser's order of addition. */
  function Own(layout: Layout, flows: Tick): Row {
    Plus(MiddleSum(layout, flows, Row(Time(flows, 1), Value(flows, 1))), Value(flows, Last(layout)))
  }

  /** The row left open after tick `k` by a parser that opened it at tick `a`. */
  function Carry(layout: Layout, ticks: seq<Tick>, a: nat, k: nat): Row
    requires a <= k < |ticks|
  {
    if k == a then MiddleSum(layout, ticks[a], Row(Time(ticks[a], 1), Value(ticks[a], 1)))
    else MiddleSum(layout, ticks[k], Carry(layout, ticks, a, k - 1))
  }

  /** The rows of the first `n` ticks: a first row opened when flow 1 appears and closed when the last
      flow appears, then one row per tick. */
  function Rows(layout: Layout, ticks: seq<Tick>, n: nat): seq<Row>
    requires n <= |ticks|
  {
    var b := Ready(layout, ticks);
    if n <= b then []
    else if n == b + 1 then [Plus(Carry(layout, ticks, Since(ticks, 1), b), Value(ticks[b], Last(layout)))]
    else Rows(layout, ticks, n - 1) + [Own(layout, ticks[n - 1])]
  }

  function OpenRow(layout: Layout, ticks: seq<Tick>, n: nat): Option<Row>
    requires n <= |ticks|
  {
    var a, b := Since(ticks, 1), Ready(layout, ticks);
    if a < n <= b then Some(Carry(layout, ticks, a, n - 1)) else None
  }

  lemma {:induction false} ParserAfter(layout: Layout, ticks: seq<Tick>, n: nat)
    requires Growing(ticks) && n <= |ticks|
    ensures ReadAll(layout, START, Log(layout, ticks[..n])) == Parser(OpenRow(layout, ticks, n), Rows(layout, ticks, n))
  {
    if n > 0 {
      var k := n - 1;
      ParserAfter(layout, ticks, k);
      ReadTick(layout, ticks, k);
      TickFromOpen(layout, ticks, k);
    }
  }

  /** Reading the log of one more tick. */
  lemma {:induction false} ReadTick(layout: Layout, ticks: seq<Tick>, k: nat)
    requires k < |ticks| && Ascending(ticks[k])
    ensures ReadAll(layout, START, Log(layout, ticks[..k + 1]))
            == TickStep(layout, ReadAll(layout, START, Log(layout, ticks[..k])), ticks[k])
  {
    assert ticks[..k + 1][..k] == ticks[..k];
    ReadAllConcat(layout, START, Log(layout, ticks[..k]), Emitted(layout, ticks[k]));
    TickThroughParser(layout, ReadAll(layout, START, Log(layout, ticks[..k])), ticks[k]);
  }

  /** One tick takes the expected parser state to the next. */
  lemma TickFromOpen(layout: Layout, ticks: seq<Tick>, k: nat)
    requires Growing(ticks) && k < |ticks|
    ensures TickStep(layout, Parser(OpenRow(layout, ticks, k), Rows(layout, ticks, k)), ticks[k])
            == Parser(OpenRow(layout, ticks, k + 1), Rows(layout, ticks, k + 1))
  {
    SinceSpec(ticks, 1, k);
    SinceSpec(ticks, Last(layout), k);
  }

  /** Emitter and parser composed: the rows before the early exit. */
  lemma RowsOfRun(layout: Layout, ticks: seq<Tick>)
    requires Growing(ticks)
    ensures ReadAll(layout, START, Log(layout, ticks)).rows == Rows(layout, ticks, |ticks|)
  {
    ParserAfter(layout, ticks, |ticks|);
    assert ticks[..|ticks|] == ticks;
  }

  lemma {:induction false} RowsLength(layout: Layout, ticks: seq<Tick>, n: nat, b: nat)
    requires b == Ready(layout, ticks) && b < n <= |ticks|
    ensures |Rows(layout, ticks, n)| == n - b
  {
    if n > b + 1 {
      RowsLength(layout, ticks, n - 1, b);
    }
  }

  lemma {:induction false} RowsIndex(layout: Layout, ticks: seq<Tick>, n: nat, b: nat, i: nat)
    requires b == Ready(layout, ticks) && 0 < i && b + i < n <= |ticks|
    ensures |Rows(layout, ticks, n)| == n - b && Rows(layout, ticks, n)[i] == Own(layout, ticks[b + i])
  {
    RowsLength(layout, ticks, n, b);
    RowsLength(layout, ticks, n - 1, b);
    assert Rows(layout, ticks, n) == Rows(layout, ticks, n - 1) + [Own(layout, ticks[n - 1])];
    if b + i < n - 1 {
      RowsIndex(layout, ticks, n - 1, b, i);
    }
  }

  lemma {:induction false} FirstStays(layout: Layout, ticks: seq<Tick>, n: nat)
    requires Ready(layout, ticks) < n <= |ticks|
    ensures var b := Ready(layout, ticks);
      Rows(layout, ticks, n) != [] &&
      Rows(layout, ticks, n)[0] == Plus(Carry(layout, ticks, Since(ticks, 1), b), Value(ticks[b], Last(layout)))
  {
    if n > Ready(layout, ticks) + 1 {
      FirstStays(layout, ticks, n - 1);
    }
  }

  lemma CompleteFrom(layout: Layout, ticks: seq<Tick>, k: nat)
    requires Growing(ticks) && Ready(layout, ticks) <= k < |ticks|
    ensures Has(ticks[k], 1) && Has(ticks[k], Last(layout))
  {
    SinceSpec(ticks, 1, k);
    SinceSpec(ticks, Last(layout), k);
  }

  lemma RowsAt(layout: Layout, ticks: seq<Tick>, i: nat)
    requires Growing(ticks) && Ready(layout, ticks) + i < |ticks|
    ensures
      var b, rows := Ready(layout, ticks), Rows(layout, ticks, |ticks|);
      && |rows| == |ticks| - b
      && Has(ticks[b + i], 1) && Has(ticks[b + i], Last(layout))
      && (i > 0 || Since(ticks, Last(layout)) <= Since(ticks, 1) ==> rows[i] == Own(layout, ticks[b + i]))
  {
    CompleteFrom(layout, ticks, Ready(layout, ticks) + i);
    var b := Ready(layout, ticks);
    RowsLength(layout, ticks, |ticks|, b);
    if i > 0 {
      RowsIndex(layout, ticks, |ticks|, b, i);
    }
    FirstStays(layout, ticks, |ticks|);
  }

  /** What the figure script makes of the log of a run. */
  function Parsed(layout: Layout, ticks: seq<Tick>, finish: real): seq<Row> {
    Cut(ReadAll(layout, START, Log(layout, ticks)).rows, finish)
  }

  /** Row `i` is the sum of tick `b + i`, so rows follow the ticks in order and without gaps; this
      holds for every row after the first, and for the first too if flow 1 did not appear before the
      last flow. */
  lemma RowIsTick(layout: Layout, ticks: seq<Tick>, finish: real, i: nat)
    requires Growing(ticks) && i < |Parsed(layout, ticks, finish)|
    requires i > 0 || Since(ticks, Last(layout)) <= Since(ticks, 1)
    ensures
      var b := Ready(layout, ticks);
      && b + i < |ticks| && Has(ticks[b + i], 1) && Has(ticks[b + i], Last(layout))
      && Parsed(layout, ticks, finish)[i] == Own(layout, ticks[b + i])
  {
    ParsedRows(layout, ticks, finish);
    CutSpec(Rows(layout, ticks, |ticks|), finish);
    assert Ready(layout, ticks) < |ticks|;
    RowsLength(layout, ticks, |ticks|, Ready(layout, ticks));
    RowsAt(layout, ticks, i);
  }

  lemma ParsedRows(layout: Layout, ticks: seq<Tick>, finish: real)
    requires Growing(ticks)
    ensures Parsed(layout, ticks, finish) == Cut(Rows(layout, ticks, |ticks|), finish)
  {
    RowsOfRun(layout, ticks);
  }

  lemma {:induction false} ParsedEnds(layout: Layout, ticks: seq<Tick>, finish: real)
    requires Growing(ticks)
    ensures UpToFinish(Parsed(layout, ticks, finish), |Rows(layout, ticks, |ticks|)|, finish)
  {
    ParsedRows(layout, ticks, finish);
    CutEnds(Rows(layout, ticks, |ticks|), finish);
  }

  lemma {:induction false} RowsPerTick(layout: Layout, ticks: seq<Tick>)
    requires Growing(ticks)
    ensures
      var b := Ready(layout, ticks);
      |Rows(layout, ticks, |ticks|)| == if b < |ticks| then |ticks| - b else 0
  {
    if Ready(layout, ticks) < |ticks| {
      RowsAt(layout, ticks, 0);
    }
  }

  /** No tick is lost: there is a row for every tick from the first complete one on, unless a row was
      past the finish time. That row is the last, and it alone is past the finish time. */
  lemma {:induction false} NoTickLost(layout: Layout, ticks: seq<Tick>, finish: real)
    requires Growing(ticks)
    ensures
      var b := Ready(layout, ticks);
      UpToFinish(Parsed(layout, ticks, finish), if b < |ticks| then |ticks| - b else 0, finish)
  {
    RowsPerTick(layout, ticks);
    ParsedEnds(layout, ticks, finish);
  }

  /** A flow of the map is the one found under its id. */
  lemma {:induction false} FoundAt(flows: Tick, f: Flow)
    requires Ascending(flows) && f in flows
    ensures Find(flows, f.id) == Some(f)
  {
    var k := |flows| - 1;
    if flows[k] != f {
      assert f in flows[..k];
      var i :| 0 <= i < k && flows[i] == f;
      FoundAt(flows[..k], f);
    }
  }

  /** The row of a two-flow tick, by its flows: the time of flow 1, and both values added. */
  lemma {:induction false} TwoFlowRow(ticks: seq<Tick>, finish: real, i: nat, f1: Flow, f3: Flow)
    requires Growing(ticks) && 0 < i < |Parsed(TwoFlows, ticks, finish)| && f1.id == 1 && f3.id == 3
    requires Ready(TwoFlows, ticks) + i < |ticks|
    requires var flows := ticks[Ready(TwoFlows, ticks) + i]; f1 in flows && f3 in flows
    ensures Parsed(TwoFlows, ticks, finish)[i] == Row(f1.time, f1.value + f3.value)
  {
    var flows := ticks[Ready(TwoFlows, ticks) + i];
    RowIsTick(TwoFlows, ticks, finish, i);
    FoundAt(flows, f1);
    FoundAt(flows, f3);
  }

  /** The same for four flows; one of the two in the middle that is missing adds nothing. */
  lemma {:induction false} FourFlowRow(ticks: seq<Tick>, finish: real, i: nat, f1: Flow, f5: Flow)
    requires Growing(ticks) && 0 < i < |Parsed(FourFlows, ticks, finish)| && f1.id == 1 && f5.id == 5
    requires Ready(FourFlows, ticks) + i < |ticks|
    requires var flows := ticks[Ready(FourFlows, ticks) + i]; f1 in flows && f5 in flows
    ensures
      var flows, row := ticks[Ready(FourFlows, ticks) + i], Parsed(FourFlows, ticks, finish)[i];
      && row.time == f1.time
      && (forall f3, f4 :: f3 in flows && f4 in flows && f3.id == 3 && f4.id == 4 ==>
            row.goodput == f1.value + f3.value + f4.value + f5.value)
      && (forall f3 :: f3 in flows && f3.id == 3 && (forall f :: f in flows ==> f.id != 4) ==>
            row.goodput == f1.value + f3.value + f5.value)
      && (forall f4 :: f4 in flows && f4.id == 4 && (forall f :: f in flows ==> f.id != 3) ==>
            row.goodput == f1.value + f4.value + f5.value)
      && ((forall f :: f in flows ==> f.id != 3 && f.id != 4) ==> row.goodput == f1.value + f5.value)
  {
    var flows := ticks[Ready(FourFlows, ticks) + i];
    RowIsTick(FourFlows, ticks, finish, i);
    FoundAt(flows, f1);
    FoundAt(flows, f5);
    MiddleValue(flows, 3);
    MiddleValue(flows, 4);
  }

  /** The value of a flow is that of its entry, and 0 without one. */
  lemma MiddleValue(flows: Tick, id: nat)
    requires Ascending(flows)
    ensures forall f :: f in flows && f.id == id ==> Value(flows, id) == f.value
    ensures (forall f :: f in flows ==> f.id != id) ==> Value(flows, id) == 0.0
  {
    FoundIsIn(flows, id);
    forall f | f in flows && f.id == id
      ensures Value(flows, id) == f.value
    {
      FoundAt(flows, f);
    }
  }

  /** What the two-flow and four-flow sums of a tick are. */
  lemma OwnSums(flows: Tick)
    ensures Own(TwoFlows, flows).goodput == Value(flows, 1) + Value(flows, 3)
    ensures Own(FourFlows, flows).goodput == Value(flows, 1) + Value(flows, 3) + Value(flows, 4) + Value(flows, 5)
  {
  }

  function MiddleTotal(ticks: seq<Tick>, a: nat, k: nat): real
    requires a <= k <= |ticks|
  {
    if k == a then 0.0 else MiddleTotal(ticks, a, k - 1) + Value(ticks[k - 1], 3) + Value(ticks[k - 1], 4)
  }

  /** What the first row of a four-flow run adds up: flow 1 when it appeared, flows 3 and 4 of every
      tick from then on until flow 5 appears. */
  lemma {:induction false} CarrySums(ticks: seq<Tick>, a: nat, k: nat)
    requires a <= k < |ticks|
    ensures Carry(TwoFlows, ticks, a, k).goodput == Value(ticks[a], 1)
    ensures Carry(FourFlows, ticks, a, k).goodput == Value(ticks[a], 1) + MiddleTotal(ticks, a, k + 1)
  {
    if a < k {
      CarrySums(ticks, a, k - 1);
    } else {
      assert MiddleTotal(ticks, a, a) == 0.0;
    }
  }

  /** The first row of a run in which flow 1 appears at tick `a` and the last flow at tick `b`: the
      time and value of flow 1 at `a`, everything in between, and the last flow at `b`. So when `a`
      comes before `b`, it mixes ticks. */
  lemma FirstRow(layout: Layout, ticks: seq<Tick>)
    requires Growing(ticks) && Ready(layout, ticks) < |ticks|
    ensures
      var a, b := Since(ticks, 1), Ready(layout, ticks);
      var rows := ReadAll(layout, START, Log(layout, ticks)).rows;
      && rows != [] && Has(ticks[a], 1) && rows[0].time == Time(ticks[a], 1)
      && rows[0].goodput ==
         Value(ticks[a], 1) + (if layout.TwoFlows? then 0.0 else MiddleTotal(ticks, a, b + 1))
         + Value(ticks[b], Last(layout))
  {
    var a, b := Since(ticks, 1), Ready(layout, ticks);
    RowsOfRun(layout, ticks);
    FirstStays(layout, ticks, |ticks|);
    SinceSpec(ticks, 1, a);
    CarrySums(ticks, a, b);
    CarryTime(layout, ticks, a, b);
  }

  /** The first row is the sum of the first complete tick exactly when flow 1's time and the parts
      picked up early come to the same: in particular when flow 1 is not early. */
  lemma FirstRowIsTickIff(layout: Layout, ticks: seq<Tick>)
    requires Growing(ticks) && Ready(layout, ticks) < |ticks|
    ensures
      var a, b, rows := Since(ticks, 1), Ready(layout, ticks), ReadAll(layout, START, Log(layout, ticks)).rows;
      && rows != []
      && (rows[0] == Own(layout, ticks[b]) <==>
            && Time(ticks[a], 1) == Time(ticks[b], 1)
            && Value(ticks[a], 1) + (if layout.TwoFlows? then 0.0 else MiddleTotal(ticks, a, b)) == Value(ticks[b], 1))
  {
    FirstRow(layout, ticks);
    OwnSums(ticks[Ready(layout, ticks)]);
  }

  /** Flow 1's lines carry later and later times, as they do when the monitor prints the current time. */
  predicate Clocked(ticks: seq<Tick>) {
    forall j, k :: 0 <= j < k < |ticks| && Has(ticks[j], 1) && Has(ticks[k], 1) ==>
                     Time(ticks[j], 1) < Time(ticks[k], 1)
  }

  /** With such times the first row is a tick's sum if and only if the last flow does not appear later
      than flow 1. */
  lemma FirstRowIsHonestIff(layout: Layout, ticks: seq<Tick>)
    requires Growing(ticks) && Clocked(ticks) && Ready(layout, ticks) < |ticks|
    ensures
      var rows := ReadAll(layout, START, Log(layout, ticks)).rows;
      && rows != []
      && (rows[0] == Own(layout, ticks[Ready(layout, ticks)]) <==> Since(ticks, Last(layout)) <= Since(ticks, 1))
  {
    var a, b := Since(ticks, 1), Ready(layout, ticks);
    FirstRowIsTickIff(layout, ticks);
    SinceSpec(ticks, 1, a);
    SinceSpec(ticks, 1, b);
    if a == b {
      RowsOfRun(layout, ticks);
      RowsAt(layout, ticks, 0);
    }
  }

  /** Flow 1 alone, then flows 1 and 3. */
  const EARLY_FLOW: seq<Tick> := [[Flow(1, 0.0, 5.0)], [Flow(1, 1.0, 7.0), Flow(3, 1.0, 1.0)]]

  lemma EarlyFlowTicks()
    ensures Find(EARLY_FLOW[0], 1) == Some(Flow(1, 0.0, 5.0))
    ensures Find(EARLY_FLOW[1], 1) == Some(Flow(1, 1.0, 7.0)) && Find(EARLY_FLOW[1], 3) == Some(Flow(3, 1.0, 1.0))
    ensures forall id :: Has(EARLY_FLOW[0], id) <==> id == 1
    ensures forall id :: Has(EARLY_FLOW[1], id) <==> id == 1 || id == 3
  {
    var t0, t1 := EARLY_FLOW[0], EARLY_FLOW[1];
    assert t1[..1] == [t1[0]];
    forall id
      ensures Has(t0, id) <==> id == 1
      ensures Has(t1, id) <==> id == 1 || id == 3
    {
      FoundIsIn(t0, id);
      FoundIsIn(t1, id);
      assert t0[0].id == 1 && t1[0].id == 1 && t1[1].id == 3;
    }
  }

  /** A run on which it fails: the first row takes its time and 5.0 from the first tick and 1.0 from
      the second, where the sum is 8.0. */
  lemma FirstRowMixesTicks()
    ensures Growing(EARLY_FLOW) && Clocked(EARLY_FLOW)
    ensures var rows := ReadAll(TwoFlows, START, Log(TwoFlows, EARLY_FLOW)).rows;
      rows != [] && rows[0] == Row(0.0, 6.0) && Own(TwoFlows, EARLY_FLOW[1]) == Row(1.0, 8.0)
  {
    EarlyFlowTicks();
    var ticks := EARLY_FLOW;
    assert Growing(ticks);
    SinceSpec(ticks, 1, 0);
    SinceSpec(ticks, 3, 0);
    SinceSpec(ticks, 3, 1);
    FirstRow(TwoFlows, ticks);
  }

  lemma {:induction false} CarryTime(layout: Layout, ticks: seq<Tick>, a: nat, k: nat)
    requires a <= k < |ticks|
    ensures Carry(layout, ticks, a, k).time == Time(ticks[a], 1)
  {
    if a < k {
      CarryTime(layout, ticks, a, k - 1);
    }
  }
}
