/** Statistics over the runs of a benchmark suite, computed online over the real numbers. */
module Welford {
  import opened Permutation

  datatype PhaseResult = PhaseResult(time: real, rate: real, period: real)

  datatype Result = Result(init: PhaseResult, run: PhaseResult)

  datatype Field = InitTime | InitRate | InitPeriod | RunTime | RunRate | RunPeriod

  function Get(r: Result, f: Field): real {
    match f
    case InitTime => r.init.time
    case InitRate => r.init.rate
    case InitPeriod => r.init.period
    case RunTime => r.run.time
    case RunRate => r.run.rate
    case RunPeriod => r.run.period
  }

  /** The six fields are all there is to a result. */
  lemma FieldsDetermine(a: Result, b: Result)
    requires forall f: Field :: Get(a, f) == Get(b, f)
    ensures a == b
  {
    assert Get(a, InitTime) == Get(b, InitTime) && Get(a, InitRate) == Get(b, InitRate);
    assert Get(a, InitPeriod) == Get(b, InitPeriod) && Get(a, RunTime) == Get(b, RunTime);
    assert Get(a, RunRate) == Get(b, RunRate) && Get(a, RunPeriod) == Get(b, RunPeriod);
  }

  // ----- The textbook definitions

  function Sum(rs: seq<Result>, f: Field): real {
    if rs == [] then 0.0 else Sum(rs[..|rs| - 1], f) + Get(rs[|rs| - 1], f)
  }

  function Mean(rs: seq<Result>, f: Field): real
    requires rs != []
  {
    Sum(rs, f) / |rs| as real
  }

  function Square(x: real): real {
    x * x
  }

  /** The sum of the squared distances from `m`. */
  function Spread(rs: seq<Result>, f: Field, m: real): real {
    if rs == [] then 0.0 else Spread(rs[..|rs| - 1], f, m) + Square(Get(rs[|rs| - 1], f) - m)
  }

  // ----- The online algorithm

  /** The update of one field; the count includes the new sample. */
  predicate Updated(x: real, average: real, moment2: real, count: nat, average': real, moment2': real)
    requires count > 0
  {
    && average' == average + (x - average) / count as real
    && moment2' == moment2 + (x - average) * (x - average')
  }

  method Accumulate(x: real, average: real, moment2: real, count: nat) returns (average': real, moment2': real)
    requires count > 0
    ensures Updated(x, average, moment2, count, average', moment2')
  {
    var deltaPre := x - average;
    average' := average + deltaPre / count as real;
    var deltaPost := x - average';
    moment2' := moment2 + deltaPre * deltaPost;
  }

  /** What the accumulators of field `f` hold after the samples `rs`; before the first sample the
      average may be anything. */
  predicate Tracks(rs: seq<Result>, f: Field, average: real, moment2: real) {
    if rs == [] then moment2 == 0.0 else average == Mean(rs, f) && moment2 == Spread(rs, f, Mean(rs, f))
  }

  predicate TracksAll(rs: seq<Result>, average: Result, moment2: Result) {
    forall f: Field :: Tracks(rs, f, Get(average, f), Get(moment2, f))
  }

  /** How the spread of `n` samples with sum `s` changes when the reference point moves from `m` by `d`. */
  function Shift(s: real, n: real, m: real, d: real): real {
    n * (d * d) - 2.0 * (d * (s - n * m))
  }

  lemma ShiftOneMore(s: real, n: real, x: real, m: real, d: real, sp: real, sp': real)
    requires sp' == sp + Shift(s, n, m, d)
    ensures sp' + Square(x - (m + d)) == sp + Square(x - m) + Shift(s + x, n + 1.0, m, d)
  {
    var u := x - m;
    assert (u - d) * (u - d) == u * u - 2.0 * (d * u) + d * d;
    assert x - (m + d) == u - d;
    assert (n + 1.0) * m == n * m + m;
    assert s + x - (n + 1.0) * m == (s - n * m) + u;
    assert d * ((s - n * m) + u) == d * (s - n * m) + d * u;
    assert (n + 1.0) * (d * d) == n * (d * d) + d * d;
  }

  lemma {:induction false} SpreadShift(rs: seq<Result>, f: Field, m: real, d: real, n: real)
    requires n == |rs| as real
    ensures Spread(rs, f, m + d) == Spread(rs, f, m) + Shift(Sum(rs, f), n, m, d)
  {
    if rs == [] {
      assert d * (0.0 - 0.0 * m) == 0.0;
    } else {
      var k := |rs| - 1;
      var x, s, sp, sp' := Get(rs[k], f), Sum(rs[..k], f), Spread(rs[..k], f, m), Spread(rs[..k], f, m + d);
      SpreadShift(rs[..k], f, m, d, n - 1.0);
      ShiftOneMore(s, n - 1.0, x, m, d, sp, sp');
      assert Sum(rs, f) == s + x;
      assert Spread(rs, f, m) == sp + Square(x - m);
      assert Spread(rs, f, m + d) == sp' + Square(x - (m + d));
      assert n - 1.0 + 1.0 == n;
    }
  }

  lemma MeanTimesCount(rs: seq<Result>, f: Field)
    requires rs != []
    ensures |rs| as real * Mean(rs, f) == Sum(rs, f)
  {
  }

  lemma DivideBack(y: real, k: real)
    requires k > 0.0
    ensures k * (y / k) == y
  {
  }

  lemma UniqueQuotient(p: real, q: real, k: real)
    requires k > 0.0 && k * p == q
    ensures p == q / k
  {
  }

  /** Moving to the new mean adds n e^2, and the new sample (n e)^2; together (x - a)(x - a'). */
  lemma StepAlgebra(n: real, e: real, u: real, v: real, s: real, a: real, shift: real, square: real, product: real)
    requires u == (n + 1.0) * e && v == u - e && n * a == s
    requires shift == Shift(s, n, a, e) && square == Square(v) && product == u * v
    ensures shift + square == product
  {
    assert v == n * e;
    assert Square(v) == n * (n * (e * e));
    assert u * v == (n + 1.0) * (n * (e * e));
    assert e * (s - n * a) == 0.0;
  }

  lemma SumSnoc(rs: seq<Result>, r: Result, f: Field, m: real)
    ensures Sum(rs + [r], f) == Sum(rs, f) + Get(r, f)
    ensures Spread(rs + [r], f, m) == Spread(rs, f, m) + Square(Get(r, f) - m)
  {
    assert (rs + [r])[..|rs|] == rs;
  }

  /** The first sample becomes the average, whatever the average was seeded with. */
  lemma FirstSample(r: Result, f: Field, average: real)
    ensures Mean([r], f) == average + (Get(r, f) - average) / 1.0 == Get(r, f) && Spread([r], f, Get(r, f)) == 0.0
  {
    SumSnoc([], r, f, Get(r, f));
    assert [] + [r] == [r];
  }

  /** The new average is the new mean. */
  lemma MeanStep(rs: seq<Result>, r: Result, f: Field, e: real)
    requires rs != [] && Get(r, f) - Mean(rs, f) == (|rs| as real + 1.0) * e
    ensures Mean(rs + [r], f) == Mean(rs, f) + e
  {
    var a, n, x := Mean(rs, f), |rs| as real, Get(r, f);
    SumSnoc(rs, r, f, 0.0);
    MeanTimesCount(rs, f);
    assert (n + 1.0) * (a + e) == n * a + a + (n + 1.0) * e;
    UniqueQuotient(a + e, Sum(rs + [r], f), n + 1.0);
  }

  /** The spread around the new mean: the old spread moved, and one more square. */
  lemma SpreadSplits(rs: seq<Result>, r: Result, f: Field, e: real, a: real, n: real, v: real)
    requires n == |rs| as real && v == Get(r, f) - (a + e)
    ensures Spread(rs + [r], f, a + e) == Spread(rs, f, a) + Shift(Sum(rs, f), n, a, e) + Square(v)
  {
    SumSnoc(rs, r, f, a + e);
    SpreadShift(rs, f, a, e, n);
  }

  lemma SpreadStep(rs: seq<Result>, r: Result, f: Field, e: real, a: real, n: real, u: real, v: real, product: real)
    requires n == |rs| as real && n * a == Sum(rs, f)
    requires u == Get(r, f) - a && u == (n + 1.0) * e && v == Get(r, f) - (a + e) && product == u * v
    ensures Spread(rs + [r], f, a + e) == Spread(rs, f, a) + product
  {
    SpreadSplits(rs, r, f, e, a, n, v);
    StepAlgebra(n, e, u, v, Sum(rs, f), a, Shift(Sum(rs, f), n, a, e), Square(v), product);
  }

  /** One step of the algorithm keeps the mean and the spread. */
  lemma WelfordStep(rs: seq<Result>, r: Result, f: Field, average: real, moment2: real)
    requires Tracks(rs, f, average, moment2)
    ensures
      var x, k := Get(r, f), |rs| as real + 1.0;
      var average' := average + (x - average) / k;
      Tracks(rs + [r], f, average', moment2 + (x - average) * (x - average'))
  {
    var x, k := Get(r, f), |rs| as real + 1.0;
    if rs == [] {
      assert rs + [r] == [r];
      FirstSample(r, f, average);
    } else {
      var e := (x - average) / k;
      DivideBack(x - average, k);
      MeanStep(rs, r, f, e);
      MeanTimesCount(rs, f);
      SpreadStep(rs, r, f, e, average, |rs| as real,
        x - average, x - (average + e), (x - average) * (x - (average + e)));
    }
  }

  predicate UpdatedAll(run: Result, average: Result, moment2: Result, count: nat, average': Result, moment2': Result)
    requires count > 0
  {
    forall f: Field :: Updated(Get(run, f), Get(average, f), Get(moment2, f), count, Get(average', f), Get(moment2', f))
  }

  lemma StepField(rs: seq<Result>, r: Result, f: Field, average: real, moment2: real, average': real, moment2': real)
    requires Tracks(rs, f, average, moment2)
    requires Updated(Get(r, f), average, moment2, |rs| + 1, average', moment2')
    ensures Tracks(rs + [r], f, average', moment2')
  {
    assert (|rs| + 1) as real == |rs| as real + 1.0;
    var x := Get(r, f);
    assert average' == average + (x - average) / (|rs| as real + 1.0);
    assert moment2' == moment2 + (x - average) * (x - average');
    WelfordStep(rs, r, f, average, moment2);
  }

  lemma StepAll(rs: seq<Result>, run: Result, average: Result, moment2: Result, average': Result, moment2': Result)
    requires TracksAll(rs, average, moment2) && UpdatedAll(run, average, moment2, |rs| + 1, average', moment2')
    ensures TracksAll(rs + [run], average', moment2')
  {
    forall f: Field
      ensures Tracks(rs + [run], f, Get(average', f), Get(moment2', f))
    {
      StepField(rs, run, f, Get(average, f), Get(moment2, f), Get(average', f), Get(moment2', f));
    }
  }

  /** The body of the averaging loop: all six fields, one after the other. */
  method AccumulateAll(run: Result, average: Result, moment2: Result, count: nat)
    returns (average': Result, moment2': Result)
    requires count > 0
    ensures UpdatedAll(run, average, moment2, count, average', moment2')
  {
    var it, im := Accumulate(run.init.time, average.init.time, moment2.init.time, count);
    var rt, rm := Accumulate(run.init.rate, average.init.rate, moment2.init.rate, count);
    var pt, pm := Accumulate(run.init.period, average.init.period, moment2.init.period, count);
    var it', im' := Accumulate(run.run.time, average.run.time, moment2.run.time, count);
    var rt', rm' := Accumulate(run.run.rate, average.run.rate, moment2.run.rate, count);
    var pt', pm' := Accumulate(run.run.period, average.run.period, moment2.run.period, count);
    average' := Result(PhaseResult(it, rt, pt), PhaseResult(it', rt', pt'));
    moment2' := Result(PhaseResult(im, rm, pm), PhaseResult(im', rm', pm'));
  }

  /** Divides every field, as the suite does before it takes square roots. */
  function Divide(r: Result, n: real): (q: Result)
    requires n != 0.0
    ensures forall f: Field :: Get(q, f) == Get(r, f) / n
  {
    Result(PhaseResult(r.init.time / n, r.init.rate / n, r.init.period / n),
           PhaseResult(r.run.time / n, r.run.rate / n, r.run.period / n))
  }

  /** The averaging loop of the suite. With fewer than two results nothing is printed; otherwise the
      average is the arithmetic mean and the variance the mean squared distance from it. */
  method Log(results: seq<Result>) returns (printed: bool, average: Result, variance: Result)
    ensures printed <==> |results| >= 2
    ensures printed ==> forall f: Field ::
      && Get(average, f) == Mean(results, f)
      && Get(variance, f) == Spread(results, f, Mean(results, f)) / |results| as real
  {
    var zero := Result(PhaseResult(0.0, 0.0, 0.0), PhaseResult(0.0, 0.0, 0.0));
    average, variance := zero, zero;
    if |results| < 2 {
      return false, average, variance;
    }
    var n := 0;
    average := results[0];
    var moment2 := zero;
    while n < |results|
      invariant n <= |results|
      invariant TracksAll(results[..n], average, moment2)
    {
      var run, count := results[n], n + 1;
      var average', moment2' := AccumulateAll(run, average, moment2, count);
      assert results[..n + 1] == results[..n] + [run];
      StepAll(results[..n], run, average, moment2, average', moment2');
      average, moment2, n := average', moment2', n + 1;
    }
    assert results[..n] == results;
    printed := true;
    variance := Divide(moment2, n as real);
    forall f: Field
      ensures Get(average, f) == Mean(results, f)
      ensures Get(variance, f) == Spread(results, f, Mean(results, f)) / |results| as real
    {
      assert Tracks(results, f, Get(average, f), Get(moment2, f));
    }
  }

  // ----- Consequences

  lemma PositiveProduct(a: real, b: real, w: real)
    requires a > 0.0 && b > 0.0 && w == a * b
    ensures w > 0.0
  {
  }

  lemma SquareSign(u: real)
    ensures Square(u) >= 0.0
    ensures Square(u) == 0.0 <==> u == 0.0
  {
    if u < 0.0 {
      PositiveProduct(-u, -u, Square(u));
    } else if u > 0.0 {
      PositiveProduct(u, u, Square(u));
    }
  }

  /** The spread is never negative, so its square root exists; and it is zero only if all samples
      equal `m`. */
  lemma {:induction false} SpreadNonNegative(rs: seq<Result>, f: Field, m: real)
    ensures Spread(rs, f, m) >= 0.0
    ensures Spread(rs, f, m) == 0.0 <==> forall i :: 0 <= i < |rs| ==> Get(rs[i], f) == m
  {
    if rs != [] {
      var k := |rs| - 1;
      SpreadNonNegative(rs[..k], f, m);
      SquareSign(Get(rs[k], f) - m);
    }
  }

  lemma {:induction false} RemoveOne(rs: seq<Result>, f: Field, m: real, i: nat)
    requires i < |rs|
    ensures Sum(rs, f) == Sum(Without(rs, i), f) + Get(rs[i], f)
    ensures Spread(rs, f, m) == Spread(Without(rs, i), f, m) + Square(Get(rs[i], f) - m)
  {
    var k := |rs| - 1;
    if i == k {
      assert Without(rs, i) == rs[..k];
    } else {
      RemoveOne(rs[..k], f, m, i);
      assert Without(rs, i)[..k - 1] == Without(rs[..k], i);
    }
  }

  lemma {:induction false} OrderIrrelevant(a: seq<Result>, b: seq<Result>, f: Field, m: real)
    requires multiset(a) == multiset(b)
    ensures |a| == |b| && Sum(a, f) == Sum(b, f) && Spread(a, f, m) == Spread(b, f, m)
    decreases |a|
  {
    SameLength(a, b);
    if a != [] {
      var j := Pick(a, b);
      OrderIrrelevant(a[..|a| - 1], Without(b, j), f, m);
      RemoveOne(b, f, m, j);
    }
  }

  /** The statistics do not depend on the order of the runs. */
  lemma StatisticsIgnoreOrder(a: seq<Result>, b: seq<Result>, f: Field)
    requires multiset(a) == multiset(b) && a != []
    ensures b != [] && Mean(a, f) == Mean(b, f)
    ensures Spread(a, f, Mean(a, f)) == Spread(b, f, Mean(b, f))
  {
    OrderIrrelevant(a, b, f, 0.0);
    OrderIrrelevant(a, b, f, Mean(a, f));
  }
}

/** The self-rescheduling event population that the benchmark drives through the simulator. */
module EventPopulation {

  /** The part of the simulator the benchmark uses: pending events by their time stamps. `depths`
      records how many events were pending before each event that was executed, and `requested` the
      delays with which events were scheduled. */
  class Simulator {
    var pending: multiset<nat>
    var now: nat
    var stopped: bool
    ghost var depths: seq<nat>
    ghost var requested: seq<nat>

    constructor ()
      ensures pending == multiset{} && !stopped && depths == [] && requested == []
    {
      pending, now, stopped, depths, requested := multiset{}, 0, false, [], [];
    }

    method Schedule(after: nat)
      modifies this
      ensures pending == old(pending) + multiset{old(now) + after}
      ensures now == old(now) && stopped == old(stopped) && depths == old(depths)
      ensures requested == old(requested) + [after]
    {
      pending := pending + multiset{now + after};
      requested := requested + [after];
    }

    method Stop()
      modifies this
      ensures stopped && pending == old(pending) && now == old(now)
      ensures depths == old(depths) && requested == old(requested)
    {
      stopped := true;
    }

    /** Takes some pending event; which one is up to the scheduler. */
    method Next()
      requires pending != multiset{}
      modifies this
      ensures now in old(pending) && pending == old(pending) - multiset{now}
      ensures |pending| == |old(pending)| - 1 && stopped == old(stopped)
      ensures depths == old(depths) + [|old(pending)|] && requested == old(requested)
    {
      var e :| e in pending;
      depths := depths + [|pending|];
      now := e;
      pending := pending - multiset{e};
    }

    method Destroy()
      modifies this
      ensures pending == multiset{} && depths == old(depths) && requested == old(requested)
    {
      pending, now := multiset{}, 0;
    }
  }

  /** The `n` delays drawn after the first `from`. */
  ghost function Drawn(delays: nat -> nat, from: nat, n: nat): seq<nat> {
    seq(n, i requires 0 <= i < n => delays(from + i))
  }

  lemma DrawnSnoc(delays: nat -> nat, from: nat, n: nat)
    ensures Drawn(delays, from, n + 1) == Drawn(delays, from, n) + [delays(from + n)]
  {
  }

  /** When events fall due that are scheduled at `now`. */
  ghost function Stamps(now: nat, delays: seq<nat>): seq<nat> {
    seq(|delays|, i requires 0 <= i < |delays| => now + delays[i])
  }

  lemma StampsSnoc(now: nat, delays: seq<nat>, d: nat)
    ensures Stamps(now, delays + [d]) == Stamps(now, delays) + [now + d]
  {
  }

  lemma DrawnConcat(delays: nat -> nat, from: nat, n: nat, m: nat)
    ensures Drawn(delays, from, n + m) == Drawn(delays, from, n) + Drawn(delays, from + n, m)
  {
  }

  class Bench {
    const sim: Simulator
    const population: nat
    const total: nat
    var count: nat

    constructor (sim: Simulator, population: nat, total: nat)
      ensures this.sim == sim && this.population == population && this.total == total
    {
      this.sim, this.population, this.total, count := sim, population, total, 0;
    }

    /** The event function: stop when enough events have been executed, else draw a delay and schedule
        another. */
    method Cb(delays: nat -> nat, draws: nat) returns (draws': nat)
      modifies this, sim
      ensures sim.depths == old(sim.depths)
      ensures sim.requested == old(sim.requested) + if old(count) >= total then [] else [delays(draws)]
      ensures if old(count) >= total
              then sim.stopped && count == old(count) && sim.pending == old(sim.pending) && draws' == draws
              else && sim.stopped == old(sim.stopped) && count == old(count) + 1 && draws' == draws + 1
                   && sim.pending == old(sim.pending) + multiset{old(sim.now) + delays(draws)}
    {
      if count >= total {
        sim.Stop();
        return draws;
      }
      sim.Schedule(delays(draws));
      draws' := draws + 1;
      count := count + 1;
    }

    /** Schedules the initial population, a delay drawn for each event. */
    method Populate(delays: nat -> nat, draws: nat) returns (draws': nat)
      requires sim.pending == multiset{}
      modifies sim
      ensures |sim.pending| == population && draws' == draws + population
      ensures sim.depths == old(sim.depths) && sim.now == old(sim.now)
      ensures sim.requested == old(sim.requested) + Drawn(delays, draws, population)
      ensures sim.pending == multiset(Stamps(sim.now, Drawn(delays, draws, population)))
    {
      draws' := draws;
      for i := 0 to population
        invariant |sim.pending| == i && draws' == draws + i
        invariant sim.depths == old(sim.depths) && sim.now == old(sim.now)
        invariant sim.requested == old(sim.requested) + Drawn(delays, draws, i)
        invariant sim.pending == multiset(Stamps(sim.now, Drawn(delays, draws, i)))
      {
        sim.Schedule(delays(draws'));
        DrawnSnoc(delays, draws, i);
        StampsSnoc(sim.now, Drawn(delays, draws, i), delays(draws + i));
        draws' := draws' + 1;
      }
    }

    /** The event loop of the simulator, with nothing but these callbacks in it. */
    method Execute(delays: nat -> nat, draws: nat) returns (draws': nat)
      requires |sim.pending| == population && count == 0
      modifies this, sim
      ensures count == if population == 0 then 0 else total
      ensures draws' == draws + count
      ensures sim.requested == old(sim.requested) + Drawn(delays, draws, count)
      ensures old(sim.depths) <= sim.depths
      ensures |sim.depths| == |old(sim.depths)| + if population == 0 then 0 else total + 1
      ensures forall i :: |old(sim.depths)| <= i < |sim.depths| ==> sim.depths[i] == population
    {
      draws' := draws;
      ghost var executed, requested, depths := 0, sim.requested, sim.depths;
      sim.stopped := false;
      while !sim.stopped && sim.pending != multiset{}
        invariant count <= total && (population == 0 ==> executed == 0) && draws' == draws + count
        invariant sim.requested == requested + Drawn(delays, draws, count)
        invariant depths <= sim.depths && |sim.depths| == |depths| + executed
        invariant forall i :: |depths| <= i < |sim.depths| ==> sim.depths[i] == population
        invariant if sim.stopped then count == total && executed == total + 1 && population > 0
                  else executed == count && |sim.pending| == population
        decreases !sim.stopped, total - count
      {
        DrawnSnoc(delays, draws, count);
        sim.Next();
        draws' := Cb(delays, draws');
        executed := executed + 1;
      }
    }

    /** One run, with the delays drawn so far numbered from `draws`. A population of at least one is
        kept at its size before every single event, the run takes `total + 1` events, reports
        exactly `total`, and leaves nothing pending. An empty population executes nothing. Each event
        is scheduled with the next delay drawn. */
    method Run(delays: nat -> nat, draws: nat) returns (events: nat, draws': nat)
      requires sim.pending == multiset{}
      modifies this, sim
      ensures sim.pending == multiset{}
      ensures events == count == if population == 0 then 0 else total
      ensures draws' == draws + population + events
      ensures sim.requested == old(sim.requested) + Drawn(delays, draws, population + events)
      ensures old(sim.depths) <= sim.depths
      ensures |sim.depths| == |old(sim.depths)| + if population == 0 then 0 else total + 1
      ensures forall i :: |old(sim.depths)| <= i < |sim.depths| ==> sim.depths[i] == population
    {
      count := 0;
      draws' := Populate(delays, draws);
      draws' := Execute(delays, draws');
      sim.Destroy();
      events := count;
      DrawnConcat(delays, draws, population, events);
      assert old(sim.requested) + (Drawn(delays, draws, population) + Drawn(delays, draws + population, events))
          == old(sim.requested) + Drawn(delays, draws, population) + Drawn(delays, draws + population, events);
    }
  }

  /** The suite: a priming run and `runs` measured runs on the same simulator. No event of one run
      is executed in another, and every measured run reports `total` events. */
  method Suite(population: nat, total: nat, runs: nat, delays: nat -> nat) returns (results: seq<nat>, sim: Simulator)
    ensures |results| == runs
    ensures forall i :: 0 <= i < runs ==> results[i] == if population == 0 then 0 else total
    ensures sim.pending == multiset{}
    ensures population > 0 ==> |sim.depths| == (runs + 1) * (total + 1)
    ensures forall i :: 0 <= i < |sim.depths| ==> sim.depths[i] == population
    ensures sim.requested == Drawn(delays, 0, |sim.requested|)
  {
    sim := new Simulator();
    var bench := new Bench(sim, population, total);
    var _, draws := bench.Run(delays, 0);
    results := [];
    for i := 0 to runs
      invariant sim.requested == Drawn(delays, 0, draws)
      invariant |results| == i && sim.pending == multiset{}
      invariant forall j :: 0 <= j < i ==> results[j] == if population == 0 then 0 else total
      invariant population > 0 ==> |sim.depths| == (i + 1) * (total + 1)
      invariant forall j :: 0 <= j < |sim.depths| ==> sim.depths[j] == population
    {
      ghost var before := draws;
      var events;
      events, draws := bench.Run(delays, draws);
      DrawnConcat(delays, 0, before, population + events);
      results := results + [events];
      assert (i + 2) * (total + 1) == (i + 1) * (total + 1) + (total + 1);
    }
    sim.Destroy();
  }
}
