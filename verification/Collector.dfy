/** Python's ordering of strings, and what sorting a list of names by it yields. */
module Names {

  predicate Leq(a: string, b: string) {
    a == [] || (b != [] && (a[0] < b[0] || (a[0] == b[0] && Leq(a[1..], b[1..]))))
  }

  predicate Sorted(s: seq<string>) {
    forall i, j :: 0 <= i < j < |s| ==> Leq(s[i], s[j])
  }

  /** The first difference between `a` and `b` is at `k`, and `a` has the smaller code point there. */
  predicate SmallerAt(a: string, b: string, k: nat) {
    k < |a| && k < |b| && a[k] < b[k] && forall j :: 0 <= j < k ==> a[j] == b[j]
  }

  lemma SmallerInTail(a: string, b: string, k: nat)
    requires a != [] && b != [] && a[0] == b[0]
    ensures SmallerAt(a[1..], b[1..], k) <==> SmallerAt(a, b, k + 1)
  {
    if SmallerAt(a[1..], b[1..], k) {
      forall j | 0 <= j < k + 1
        ensures a[j] == b[j]
      {
        assert j > 0 ==> a[1..][j - 1] == b[1..][j - 1];
      }
    }
  }

  /** It is the order by the first difference, a prefix coming first. */
  lemma {:induction false} LeqIff(a: string, b: string)
    ensures Leq(a, b) <==> a <= b || exists k: nat :: SmallerAt(a, b, k)
  {
    if a != [] && b != [] {
      if a[0] < b[0] {
        assert SmallerAt(a, b, 0);
      } else if a[0] == b[0] {
        LeqIff(a[1..], b[1..]);
        assert a == [a[0]] + a[1..] && b == [b[0]] + b[1..];
        assert a <= b <==> a[1..] <= b[1..];
        if k: nat :| SmallerAt(a[1..], b[1..], k) {
          SmallerInTail(a, b, k);
        }
        if k: nat :| SmallerAt(a, b, k) {
          SmallerInTail(a, b, k - 1);
        }
      }
    }
  }

  lemma {:induction false} LeqTotal(a: string, b: string)
    ensures Leq(a, b) || Leq(b, a)
  {
    if a != [] && b != [] && a[0] == b[0] {
      LeqTotal(a[1..], b[1..]);
    }
  }

  lemma {:induction false} LeqAntisymmetric(a: string, b: string)
    requires Leq(a, b) && Leq(b, a)
    ensures a == b
  {
    if a != [] {
      LeqAntisymmetric(a[1..], b[1..]);
      assert a == [a[0]] + a[1..] && b == [b[0]] + b[1..];
    }
  }

  lemma {:induction false} LeqTransitive(a: string, b: string, c: string)
    requires Leq(a, b) && Leq(b, c)
    ensures Leq(a, c)
  {
    if a != [] && a[0] == b[0] == c[0] {
      LeqTransitive(a[1..], b[1..], c[1..]);
    }
  }

  function Insert(x: string, s: seq<string>): seq<string> {
    if s == [] then [x] else if Leq(x, s[0]) then [x] + s else [s[0]] + Insert(x, s[1..])
  }

  lemma {:induction false} InsertElements(x: string, s: seq<string>)
    ensures multiset(Insert(x, s)) == multiset(s) + multiset{x}
  {
    if s == [] || Leq(x, s[0]) {
      ConsElements(x, s);
    } else {
      InsertElements(x, s[1..]);
      ConsElements(s[0], Insert(x, s[1..]));
      ConsElements(s[0], s[1..]);
      assert s == [s[0]] + s[1..];
    }
  }

  lemma ConsElements(x: string, s: seq<string>)
    ensures multiset([x] + s) == multiset(s) + multiset{x}
  {
  }

  lemma SortedCons(x: string, s: seq<string>)
    requires Sorted(s) && forall y :: y in multiset(s) ==> Leq(x, y)
    ensures Sorted([x] + s)
  {
    assert forall j :: 0 <= j < |s| ==> s[j] in multiset(s);
  }

  lemma {:induction false} InsertSorted(x: string, s: seq<string>)
    requires Sorted(s)
    ensures Sorted(Insert(x, s))
  {
    if s != [] {
      LeqTotal(x, s[0]);
      forall y | y in multiset(s)
        ensures Leq(s[0], y)
      {
        LeqTotal(s[0], s[0]);
      }
      if Leq(x, s[0]) {
        forall y | y in multiset(s)
          ensures Leq(x, y)
        {
          LeqTransitive(x, s[0], y);
        }
        SortedCons(x, s);
      } else {
        InsertSorted(x, s[1..]);
        InsertElements(x, s[1..]);
        assert s == [s[0]] + s[1..];
        SortedCons(s[0], Insert(x, s[1..]));
      }
    }
  }

  /** The sorted list with the elements of `s`. */
  function Sort(s: seq<string>): (r: seq<string>)
    ensures Sorted(r) && multiset(r) == multiset(s)
  {
    if s == [] then [] else
    assert s == [s[0]] + s[1..];
    InsertSorted(s[0], Sort(s[1..]));
    InsertElements(s[0], Sort(s[1..]));
    Insert(s[0], Sort(s[1..]))
  }

  /** There is only one sorted list with given elements, so any sort computes `Sort`. */
  lemma {:induction false} SortedIsUnique(a: seq<string>, b: seq<string>)
    requires Sorted(a) && Sorted(b) && multiset(a) == multiset(b)
    ensures a == b
  {
    assert |multiset(a)| == |multiset(b)|;
    if a != [] {
      SameFirst(a, b);
      SortedIsUnique(a[1..], b[1..]);
      assert a == [a[0]] + a[1..] && b == [b[0]] + b[1..];
    }
  }

  lemma SameFirst(a: seq<string>, b: seq<string>)
    requires Sorted(a) && Sorted(b) && multiset(a) == multiset(b) && a != [] && b != []
    ensures a[0] == b[0] && multiset(a[1..]) == multiset(b[1..])
  {
    assert a[0] in multiset(b) && b[0] in multiset(a);
    FirstIsLeast(a, b[0]);
    FirstIsLeast(b, a[0]);
    LeqAntisymmetric(a[0], b[0]);
    TailElements(a);
    TailElements(b);
  }

  lemma FirstIsLeast(s: seq<string>, x: string)
    requires Sorted(s) && x in s
    ensures Leq(s[0], x)
  {
    var j :| 0 <= j < |s| && s[j] == x;
    LeqTotal(x, x);
  }

  lemma TailElements(s: seq<string>)
    requires s != []
    ensures multiset(s[1..]) == multiset(s) - multiset{s[0]}
  {
    assert s == [s[0]] + s[1..];
  }
}

/** Taking one element out of two lists with the same elements. */
module Permutation {

  /** `a` without its element at `i`. */
  function Without<T>(a: seq<T>, i: nat): seq<T>
    requires i < |a|
  {
    a[..i] + a[i + 1..]
  }

  lemma WithoutMultiset<T>(a: seq<T>, i: nat)
    requires i < |a|
    ensures multiset(Without(a, i)) == multiset(a) - multiset{a[i]}
  {
    assert a == a[..i] + [a[i]] + a[i + 1..];
  }

  /** The last element of `a` occurs in `b`, and without it the rests have the same elements. */
  lemma Pick<T>(a: seq<T>, b: seq<T>) returns (j: nat)
    requires multiset(a) == multiset(b) && a != []
    ensures j < |b| && b[j] == a[|a| - 1] && multiset(a[..|a| - 1]) == multiset(Without(b, j))
  {
    var k := |a| - 1;
    assert a[k] in multiset(b);
    j :| 0 <= j < |b| && b[j] == a[k];
    WithoutMultiset(a, k);
    WithoutMultiset(b, j);
    assert Without(a, k) == a[..k];
  }

  lemma SameLength<T>(a: seq<T>, b: seq<T>)
    requires multiset(a) == multiset(b)
    ensures |a| == |b|
  {
    assert |multiset(a)| == |multiset(b)|;
  }
}

/** The loop that takes reports off the output queue and turns them into counters, name lists and
    the exit code. */
module Collector {
  import opened Jobs
  import Names
  import opened Permutation

  datatype Status = Interrupted | Skipped | Passed | Failed | Valgrind | Crashed

  function StatusOf(r: Report): Status {
    if r.isBreak then Interrupted
    else if r.job.isSkip then Skipped
    else if r.outcome.code == 0 then Passed
    else if r.outcome.code == 1 then Failed
    else if r.outcome.code == 2 then Valgrind
    else Crashed
  }

  function Label(r: Report): string {
    if r.job.isSkip then r.job.name + " (" + r.job.skipReason + ")" else r.job.name
  }

  predicate Succeeded(r: Report) {
    !r.isBreak && (r.job.isSkip || r.outcome.code == 0)
  }

  function Bit(r: Report, st: Status): nat {
    if StatusOf(r) == st then 1 else 0
  }

  /** `names` with the label of `r` appended, if `r` has status `st`. */
  function Noted(names: seq<string>, r: Report, st: Status): seq<string> {
    if StatusOf(r) == st then names + [Label(r)] else names
  }

  /** The labels of the reports with status `st`, in order of arrival. */
  function Labels(rs: seq<Report>, st: Status): seq<string> {
    if rs == [] then []
    else
      var k := |rs| - 1;
      Noted(Labels(rs[..k], st), rs[k], st)
  }

  function Count(rs: seq<Report>, st: Status): nat {
    if rs == [] then 0
    else
      var k := |rs| - 1;
      Count(rs[..k], st) + Bit(rs[k], st)
  }

  predicate IsExample(job: Job) {
    !job.kind.Suite?
  }

  /** How often a report stays in the list of failed jobs: once for a return code other than 0, and,
      for a suite, once more unless its results file is readable and says PASS or SKIP. */
  function FailedTimes(r: Report): nat {
    if StatusOf(r).Interrupted? || StatusOf(r).Skipped? then 0
    else
      (if r.outcome.code == 0 then 0 else 1) +
      (if IsExample(r.job) || (r.outcome.code in {0, 1, 2} && r.outcome.xmlPasses) then 0 else 1)
  }

  function Failures(rs: seq<Report>): seq<nat> {
    if rs == [] then []
    else
      var k := |rs| - 1;
      Failures(rs[..k]) + seq(FailedTimes(rs[k]), _ => rs[k].id)
  }

  lemma Snoc(rs: seq<Report>, r: Report, st: Status)
    ensures Count(rs + [r], st) == Count(rs, st) + Bit(r, st)
    ensures Labels(rs + [r], st) == Noted(Labels(rs, st), r, st)
  {
    assert (rs + [r])[..|rs|] == rs;
  }

  /** The counters and name lists of the collecting loop. */
  datatype Counters = Counters(
    passed: nat, skipped: nat, failed: nat, crashed: nat, valgrind: nat,
    skippedNames: seq<string>, failedNames: seq<string>, crashedNames: seq<string>, valgrindNames: seq<string>)

  /** What they hold after the reports `rs`. */
  function CountersOf(rs: seq<Report>): Counters {
    Counters(Count(rs, Passed), Count(rs, Skipped), Count(rs, Failed), Count(rs, Crashed), Count(rs, Valgrind),
             Labels(rs, Skipped), Labels(rs, Failed), Labels(rs, Crashed), Labels(rs, Valgrind))
  }

  function Tallied(c: Counters, r: Report): Counters {
    Counters(c.passed + Bit(r, Passed), c.skipped + Bit(r, Skipped), c.failed + Bit(r, Failed),
             c.crashed + Bit(r, Crashed), c.valgrind + Bit(r, Valgrind),
             Noted(c.skippedNames, r, Skipped), Noted(c.failedNames, r, Failed),
             Noted(c.crashedNames, r, Crashed), Noted(c.valgrindNames, r, Valgrind))
  }

  lemma CountersSnoc(rs: seq<Report>, r: Report)
    ensures CountersOf(rs + [r]) == Tallied(CountersOf(rs), r)
  {
    Snoc(rs, r, Passed);
    Snoc(rs, r, Skipped);
    Snoc(rs, r, Failed);
    Snoc(rs, r, Crashed);
    Snoc(rs, r, Valgrind);
  }

  lemma Copies(s: seq<nat>, id: nat)
    ensures s + seq(0, _ => id) == s
    ensures s + seq(1, _ => id) == s + [id]
    ensures s + seq(2, _ => id) == s + [id] + [id]
  {
  }

  lemma FailuresSnoc(rs: seq<Report>, r: Report)
    ensures Failures(rs + [r]) == Failures(rs) + seq(FailedTimes(r), _ => r.id)
  {
    assert (rs + [r])[..|rs|] == rs;
  }

  datatype Summary = Summary(
    passed: nat, skipped: nat, failed: nat, crashed: nat, valgrind: nat,
    skippedNames: seq<string>, failedNames: seq<string>,
    crashedNames: seq<string>, valgrindNames: seq<string>,
    exitCode: int)

  /** The printed summary and exit code for `total` queued jobs and the reports `rs`. */
  function Summarise(rs: seq<Report>, total: nat): Summary {
    Summary(
      Count(rs, Passed), Count(rs, Skipped), Count(rs, Failed), Count(rs, Crashed), Count(rs, Valgrind),
      Names.Sort(Labels(rs, Skipped)), Names.Sort(Labels(rs, Failed)),
      Names.Sort(Labels(rs, Crashed)), Names.Sort(Labels(rs, Valgrind)),
      if Count(rs, Passed) + Count(rs, Skipped) == total then 0 else 1)
  }

  /** What the main thread updates while it collects. */
  class Collector {
    var counters: Counters
    var failedJobs: seq<nat>
    ghost var seen: seq<Report>

    ghost predicate Valid()
      reads this
    {
      counters == CountersOf(seen) && failedJobs == Failures(seen)
    }

    constructor ()
      ensures Valid() && seen == []
    {
      counters := Counters(0, 0, 0, 0, 0, [], [], [], []);
      failedJobs, seen := [], [];
    }

    /** Counts a report that was not handed back. The entry pushed on the list of failed jobs is
        popped again on success. */
    method Classify(r: Report)
      requires !r.isBreak
      modifies `counters, `failedJobs
      ensures counters == Tallied(old(counters), r)
      ensures
        var c := old(counters);
        counters ==
        if r.job.isSkip then
          c.(skipped := c.skipped + 1,
             skippedNames := c.skippedNames + [r.job.name + " (" + r.job.skipReason + ")"])
        else
          match r.outcome.code
          case 0 => c.(passed := c.passed + 1)
          case 1 => c.(failed := c.failed + 1, failedNames := c.failedNames + [r.job.name])
          case 2 => c.(valgrind := c.valgrind + 1, valgrindNames := c.valgrindNames + [r.job.name])
          case _ => c.(crashed := c.crashed + 1, crashedNames := c.crashedNames + [r.job.name])
      ensures failedJobs == if Succeeded(r) then old(failedJobs) else old(failedJobs) + [r.id]
    {
      var c := counters;
      if r.job.isSkip {
        counters := c.(skipped := c.skipped + 1,
                       skippedNames := c.skippedNames + [r.job.name + " (" + r.job.skipReason + ")"]);
      } else {
        failedJobs := failedJobs + [r.id];
        if r.outcome.code == 0 {
          counters := c.(passed := c.passed + 1);
          failedJobs := failedJobs[..|failedJobs| - 1];
        } else if r.outcome.code == 1 {
          counters := c.(failed := c.failed + 1, failedNames := c.failedNames + [r.job.name]);
        } else if r.outcome.code == 2 {
          counters := c.(valgrind := c.valgrind + 1, valgrindNames := c.valgrindNames + [r.job.name]);
        } else {
          counters := c.(crashed := c.crashed + 1, crashedNames := c.crashedNames + [r.job.name]);
        }
      }
    }

    /** The second look at a suite: pushed again, and popped if its results file says it went well. */
    method Recheck(r: Report)
      modifies `failedJobs
      ensures failedJobs ==
              if r.outcome.code in {0, 1, 2} && r.outcome.xmlPasses then old(failedJobs)
              else old(failedJobs) + [r.id]
    {
      failedJobs := failedJobs + [r.id];
      if r.outcome.code in {0, 1, 2} && r.outcome.xmlPasses {
        failedJobs := failedJobs[..|failedJobs| - 1];
      }
    }

    /** Takes one report off the queue. Every pop removes the entry pushed for this very report, so
        the entries of earlier reports survive. */
    method Accept(r: Report)
      requires Valid()
      modifies this
      ensures Valid() && seen == old(seen) + [r]
      ensures failedJobs == old(failedJobs) + seq(FailedTimes(r), _ => r.id)
    {
      CountersSnoc(seen, r);
      FailuresSnoc(seen, r);
      Copies(failedJobs, r.id);
      if !r.isBreak {
        Classify(r);
        if !IsExample(r.job) && !r.job.isSkip {
          Recheck(r);
        }
      }
      seen := seen + [r];
    }

    /** The summary printed after the loop. */
    method Finish(total: nat) returns (s: Summary)
      requires Valid()
      ensures s == Summarise(seen, total)
    {
      var c := counters;
      s := Summary(c.passed, c.skipped, c.failed, c.crashed, c.valgrind,
                   Names.Sort(c.skippedNames), Names.Sort(c.failedNames),
                   Names.Sort(c.crashedNames), Names.Sort(c.valgrindNames),
                   if c.passed + c.skipped == total then 0 else 1);
    }
  }

  /** The collecting loop as a whole. */
  method CollectAll(reports: seq<Report>) returns (s: Summary, failedJobs: seq<nat>)
    ensures s == Summarise(reports, |reports|)
    ensures failedJobs == Failures(reports)
  {
    var c := new Collector();
    for i := 0 to |reports|
      invariant c.Valid() && fresh(c) && c.seen == reports[..i]
    {
      c.Accept(reports[i]);
    }
    assert reports[..|reports|] == reports;
    s := c.Finish(|reports|);
    failedJobs := c.failedJobs;
  }

  // ----- Accounting

  /** Every report is counted under exactly one heading. */
  lemma {:induction false} EveryReportCounted(rs: seq<Report>)
    ensures Count(rs, Passed) + Count(rs, Failed) + Count(rs, Crashed) + Count(rs, Valgrind)
            + Count(rs, Skipped) + Count(rs, Interrupted) == |rs|
  {
    if rs != [] {
      EveryReportCounted(rs[..|rs| - 1]);
    }
  }

  lemma {:induction false} SuccessesCounted(rs: seq<Report>)
    ensures Count(rs, Passed) + Count(rs, Skipped) <= |rs|
    ensures Count(rs, Passed) + Count(rs, Skipped) == |rs| <==> forall i :: 0 <= i < |rs| ==> Succeeded(rs[i])
  {
    if rs != [] {
      SuccessesCounted(rs[..|rs| - 1]);
    }
  }

  /** A report is listed as failed unless it was handed back, skipped, or passed in every respect. */
  lemma {:induction false} FailureListed(rs: seq<Report>, id: nat)
    ensures id in Failures(rs) <==>
      exists i :: 0 <= i < |rs| && rs[i].id == id && !rs[i].isBreak && !rs[i].job.isSkip &&
        (rs[i].outcome.code != 0 || (rs[i].job.kind.Suite? && !rs[i].outcome.xmlPasses))
  {
    if rs != [] {
      var k := |rs| - 1;
      FailureListed(rs[..k], id);
      InCopies(FailedTimes(rs[k]), rs[k].id, id);
      assert id in Failures(rs) <==> id in Failures(rs[..k]) || (FailedTimes(rs[k]) > 0 && rs[k].id == id);
    }
  }

  lemma InCopies(n: nat, x: nat, id: nat)
    ensures id in seq(n, _ => x) <==> n > 0 && x == id
  {
    if n > 0 {
      assert seq(n, _ => x)[0] == x;
    }
  }

  /** A suite that returns 1 and whose results file does not say PASS is listed twice. */
  lemma FailedSuiteListedTwice()
    ensures
      var r := Report(7, Job("suite", Suite, false, ""), false, Outcome(1, false));
      FailedTimes(r) == 2 && Failures([r]) == [7, 7]
  {
    var r := Report(7, Job("suite", Suite, false, ""), false, Outcome(1, false));
    FailuresSnoc([], r);
    Copies([], 7);
    assert [] + [r] == [r];
  }

  // ----- The order of arrival does not matter

  /** How many reports satisfy `p`. */
  function Tally(p: Report -> bool, rs: seq<Report>): nat {
    if rs == [] then 0
    else
      var k := |rs| - 1;
      Tally(p, rs[..k]) + if p(rs[k]) then 1 else 0
  }

  lemma {:induction false} RemoveOne(p: Report -> bool, rs: seq<Report>, i: nat)
    requires i < |rs|
    ensures Tally(p, rs) == Tally(p, Without(rs, i)) + if p(rs[i]) then 1 else 0
  {
    var k := |rs| - 1;
    if i == k {
      assert Without(rs, i) == rs[..k];
    } else {
      RemoveOne(p, rs[..k], i);
      assert Without(rs, i)[..k - 1] == Without(rs[..k], i);
    }
  }

  lemma {:induction false} TallyIgnoresOrder(p: Report -> bool, a: seq<Report>, b: seq<Report>)
    requires multiset(a) == multiset(b)
    ensures Tally(p, a) == Tally(p, b)
    decreases |a|
  {
    SameLength(a, b);
    if a != [] {
      var j := Pick(a, b);
      TallyIgnoresOrder(p, a[..|a| - 1], Without(b, j));
      RemoveOne(p, b, j);
    }
  }

  lemma {:induction false} CountIsTally(rs: seq<Report>, st: Status)
    ensures Count(rs, st) == Tally(r => StatusOf(r) == st, rs)
  {
    if rs != [] {
      CountIsTally(rs[..|rs| - 1], st);
    }
  }

  lemma {:induction false} LabelsAreTally(rs: seq<Report>, st: Status, x: string)
    ensures multiset(Labels(rs, st))[x] == Tally(r => StatusOf(r) == st && Label(r) == x, rs)
  {
    if rs != [] {
      LabelsAreTally(rs[..|rs| - 1], st, x);
    }
  }

  /** A report that ran and came back with `code`. */
  predicate Returned(r: Report, code: int) {
    !r.isBreak && !r.job.isSkip && r.outcome.code == code
  }

  predicate Broke(r: Report) {
    !r.isBreak && !r.job.isSkip && r.outcome.code !in {0, 1, 2}
  }

  predicate LeftOut(r: Report) {
    !r.isBreak && r.job.isSkip
  }

  lemma {:induction false} SameTally(p: Report -> bool, q: Report -> bool, rs: seq<Report>)
    requires forall r :: p(r) <==> q(r)
    ensures Tally(p, rs) == Tally(q, rs)
  {
    if rs != [] {
      SameTally(p, q, rs[..|rs| - 1]);
    }
  }

  /** `count` reports satisfy `p`, and `names` are their names in sorted order. */
  ghost predicate ListsExactly(count: nat, names: seq<string>, p: Report -> bool, rs: seq<Report>) {
    && count == Tally(p, rs)
    && Names.Sorted(names)
    && forall x :: multiset(names)[x] == Tally((r: Report) => p(r) && r.job.name == x, rs)
  }

  lemma ListedByStatus(rs: seq<Report>, st: Status, p: Report -> bool)
    requires forall r :: p(r) <==> StatusOf(r) == st
    requires forall r :: p(r) ==> Label(r) == r.job.name
    ensures ListsExactly(Count(rs, st), Names.Sort(Labels(rs, st)), p, rs)
  {
    CountIsTally(rs, st);
    SameTally(p, r => StatusOf(r) == st, rs);
    forall x
      ensures multiset(Labels(rs, st))[x] == Tally((r: Report) => p(r) && r.job.name == x, rs)
    {
      LabelsAreTally(rs, st, x);
      SameTally((r: Report) => p(r) && r.job.name == x, r => StatusOf(r) == st && Label(r) == x, rs);
    }
  }

  /** The printed summary by return codes: under which heading each report is counted, and which names
      each list holds and how often. */
  lemma SummaryByCode(rs: seq<Report>, total: nat)
    ensures
      var s := Summarise(rs, total);
      && s.passed == Tally(r => Returned(r, 0), rs)
      && ListsExactly(s.failed, s.failedNames, r => Returned(r, 1), rs)
      && ListsExactly(s.valgrind, s.valgrindNames, r => Returned(r, 2), rs)
      && ListsExactly(s.crashed, s.crashedNames, Broke, rs)
      && (s.exitCode == if s.passed + s.skipped == total then 0 else 1)
  {
    CountIsTally(rs, Passed);
    SameTally(r => Returned(r, 0), r => StatusOf(r) == Passed, rs);
    ListedByStatus(rs, Failed, r => Returned(r, 1));
    ListedByStatus(rs, Valgrind, r => Returned(r, 2));
    ListedByStatus(rs, Crashed, Broke);
  }

  /** Skipped, and listed as `x`: the reason stands behind the name. */
  predicate LeftOutAs(r: Report, x: string) {
    LeftOut(r) && r.job.name + " (" + r.job.skipReason + ")" == x
  }

  lemma LeftOutLabels(rs: seq<Report>, x: string)
    ensures multiset(Labels(rs, Skipped))[x] == Tally(r => LeftOutAs(r, x), rs)
  {
    LabelsAreTally(rs, Skipped, x);
    SameTally(r => LeftOutAs(r, x), r => StatusOf(r) == Skipped && Label(r) == x, rs);
  }

  /** The skipped reports, listed with the reason behind the name. */
  lemma SkippedWithReason(rs: seq<Report>, total: nat)
    ensures Summarise(rs, total).skipped == Tally(LeftOut, rs)
    ensures Names.Sorted(Summarise(rs, total).skippedNames)
    ensures forall x :: multiset(Summarise(rs, total).skippedNames)[x] == Tally(r => LeftOutAs(r, x), rs)
  {
    CountIsTally(rs, Skipped);
    SameTally(LeftOut, r => StatusOf(r) == Skipped, rs);
    forall x
      ensures multiset(Labels(rs, Skipped))[x] == Tally(r => LeftOutAs(r, x), rs)
    {
      LeftOutLabels(rs, x);
    }
  }

  lemma OrderIrrelevant(a: seq<Report>, b: seq<Report>, st: Status)
    requires multiset(a) == multiset(b)
    ensures Count(a, st) == Count(b, st) && multiset(Labels(a, st)) == multiset(Labels(b, st))
  {
    CountIsTally(a, st);
    CountIsTally(b, st);
    TallyIgnoresOrder(r => StatusOf(r) == st, a, b);
    forall x
      ensures multiset(Labels(a, st))[x] == multiset(Labels(b, st))[x]
    {
      LabelsAreTally(a, st, x);
      LabelsAreTally(b, st, x);
      TallyIgnoresOrder(r => StatusOf(r) == st && Label(r) == x, a, b);
    }
  }

  /** Reports in any order give the same summary. */
  lemma SummaryIgnoresOrder(a: seq<Report>, b: seq<Report>, total: nat)
    requires multiset(a) == multiset(b)
    ensures Summarise(a, total) == Summarise(b, total)
  {
    forall st: Status
      ensures Count(a, st) == Count(b, st) && Names.Sort(Labels(a, st)) == Names.Sort(Labels(b, st))
    {
      OrderIrrelevant(a, b, st);
      Names.SortedIsUnique(Names.Sort(Labels(a, st)), Names.Sort(Labels(b, st)));
    }
  }
}
