/** What whole runs of the test runner report. */
module Runs {
  import opened Jobs
  import opened Runner
  import opened Collector

  /** A run of the runner from start to end. */
  ghost predicate Complete(c: Config, steps: seq<Step>) {
    c.Valid() && IsRun(c, Init(c), steps) && Final(c, After(c, Init(c), steps))
  }

  function Collected(c: Config, steps: seq<Step>): seq<Report>
    requires c.Valid() && IsRun(c, Init(c), steps)
  {
    After(c, Init(c), steps).collected
  }

  lemma {:induction false} FlagNeedsInterrupt(c: Config, s: State, steps: seq<Step>)
    requires c.Valid() && IsRun(c, s, steps) && Interrupt !in steps
    ensures After(c, s, steps).threadExit == s.threadExit
    decreases |steps|
  {
    if steps != [] {
      assert steps[0] != Interrupt;
      FlagNeedsInterrupt(c, Apply(c, s, steps[0]), steps[1..]);
    }
  }

  lemma {:induction false} CountByToken(rs: seq<Report>, r: Report)
    requires forall i :: 0 <= i < |rs| && rs[i].id == r.id ==> rs[i] == r
    ensures multiset(rs)[r] == multiset(Tokens(rs))[Work(r.id)]
  {
    if rs != [] {
      var k := |rs| - 1;
      CountByToken(rs[..k], r);
      assert rs == rs[..k] + [rs[k]];
      CountAppend(rs[..k], rs[k], Work(r.id));
    }
  }

  /** The reports of an undisturbed run are those of a sequential run, in some order. */
  lemma {:induction false} CollectedIsPermutation(c: Config, steps: seq<Step>)
    requires Complete(c, steps) && Interrupt !in steps
    ensures multiset(Collected(c, steps)) == multiset(c.Sequential())
  {
    InitInv(c);
    RunInv(c, Init(c), steps);
    FlagNeedsInterrupt(c, Init(c), steps);
    var s := After(c, Init(c), steps);
    FinalState(c, s);
    assert Tokens(c.Sequential()) == Works(|c.jobs|);
    forall r: Report
      ensures multiset(s.collected)[r] == multiset(c.Sequential())[r]
    {
      if r.id < |c.jobs| && r == c.Expected(r.id) {
        CountByToken(s.collected, r);
        CountByToken(c.Sequential(), r);
      } else {
        assert r !in s.collected;
        assert r !in c.Sequential();
      }
    }
  }

  /** Whatever the interleaving and the number of workers, an undisturbed run prints the counters
      and name lists, and returns the exit code, of running the jobs one at a time. */
  lemma ParallelRefinesSequential(c: Config, steps: seq<Step>)
    requires Complete(c, steps) && Interrupt !in steps
    ensures Summarise(Collected(c, steps), |c.jobs|) == Summarise(c.Sequential(), |c.jobs|)
  {
    CollectedIsPermutation(c, steps);
    SummaryIgnoresOrder(Collected(c, steps), c.Sequential(), |c.jobs|);
  }

  lemma OccursOnce<T>(s: seq<T>, i: nat)
    requires i < |s| && multiset(s)[s[i]] == 1
    ensures forall j :: 0 <= j < |s| && j != i ==> s[j] != s[i]
  {
    var x := s[i];
    assert s == s[..i] + [x] + s[i + 1..];
    assert x !in multiset(s[..i]) && x !in multiset(s[i + 1..]);
    forall j | 0 <= j < |s| && j != i
      ensures s[j] != x
    {
      assert s[j] in if j < i then s[..i] else s[i + 1..];
    }
  }

  /** Over any run, interrupted or not, every job comes back exactly once: at position `i`. */
  lemma {:induction false} EveryJobReturns(c: Config, steps: seq<Step>, id: nat) returns (i: nat)
    requires Complete(c, steps) && id < |c.jobs|
    ensures i < |Collected(c, steps)|
    ensures Collected(c, steps)[i].id == id && Collected(c, steps)[i].job == c.jobs[id]
    ensures forall j :: 0 <= j < |Collected(c, steps)| && j != i ==> Collected(c, steps)[j].id != id
  {
    InitInv(c);
    RunInv(c, Init(c), steps);
    var s := After(c, Init(c), steps);
    FinalState(c, s);
    CountWorks(|c.jobs|, Work(id));
    var ts := Tokens(s.collected);
    assert Work(id) in multiset(ts);
    i :| 0 <= i < |ts| && ts[i] == Work(id);
    assert Honest(c, s.threadExit, s.collected[i]);
    OccursOnce(ts, i);
    assert forall j :: 0 <= j < |ts| ==> ts[j] == Work(s.collected[j].id);
  }

  /** Over any run, interrupted or not, the counters add up to the number of queued jobs, and the
      exit code is 0 exactly when every job came back processed and was skipped or returned 0. */
  lemma EveryJobAccountedFor(c: Config, steps: seq<Step>)
    requires Complete(c, steps)
    ensures
      var rs := Collected(c, steps);
      && Count(rs, Passed) + Count(rs, Failed) + Count(rs, Crashed) + Count(rs, Valgrind)
         + Count(rs, Skipped) + Count(rs, Interrupted) == |c.jobs|
      && (Summarise(rs, |c.jobs|).exitCode == 0 <==> forall i :: 0 <= i < |rs| ==> Succeeded(rs[i]))
  {
    InitInv(c);
    RunInv(c, Init(c), steps);
    EveryReportCounted(Collected(c, steps));
    SuccessesCounted(Collected(c, steps));
  }

  // ----- The list of failed jobs

  lemma {:induction false} NotListed(rs: seq<Report>, id: nat)
    requires forall i :: 0 <= i < |rs| ==> rs[i].id != id
    ensures multiset(Failures(rs))[id] == 0
  {
    if rs != [] {
      var k := |rs| - 1;
      NotListed(rs[..k], id);
      CountCopies(FailedTimes(rs[k]), rs[k].id, id);
    }
  }

  lemma {:induction false} CountCopies(n: nat, x: nat, id: nat)
    ensures multiset(seq(n, _ => x))[id] == if x == id then n else 0
  {
    if n > 0 {
      assert seq(n, _ => x) == seq(n - 1, _ => x) + [x];
      CountCopies(n - 1, x, id);
    }
  }

  lemma {:induction false} ListedAsOften(rs: seq<Report>, p: nat)
    requires p < |rs| && forall i :: 0 <= i < |rs| && i != p ==> rs[i].id != rs[p].id
    ensures multiset(Failures(rs))[rs[p].id] == FailedTimes(rs[p])
  {
    var k := |rs| - 1;
    CountCopies(FailedTimes(rs[k]), rs[k].id, rs[p].id);
    if p < k {
      ListedAsOften(rs[..k], p);
    } else {
      NotListed(rs[..k], rs[p].id);
    }
  }

  /** How often a job is in the list of failed jobs after any complete run: twice exactly for a suite
      that was run, returned other than 0, and has no results file with PASS or SKIP to its code 1 or 2. */
  lemma ListedTwiceIff(c: Config, steps: seq<Step>, id: nat) returns (p: nat)
    requires Complete(c, steps) && id < |c.jobs|
    ensures p < |Collected(c, steps)| && Collected(c, steps)[p].id == id
    ensures
      var rs := Collected(c, steps);
      var r := rs[p];
      && multiset(Failures(rs))[id] == FailedTimes(r) <= 2
      && (multiset(Failures(rs))[id] == 2 <==>
            && !r.isBreak && !r.job.isSkip && r.job.kind.Suite? && r.outcome.code != 0
            && !(r.outcome.code in {1, 2} && r.outcome.xmlPasses))
  {
    p := EveryJobReturns(c, steps, id);
    ListedAsOften(Collected(c, steps), p);
  }

  // ----- What an interrupt does

  /** The flag is up, job `id` is not running, and every report of it says it was handed back. */
  predicate Spared(s: State, id: nat) {
    && s.threadExit
    && (forall w :: 0 <= w < |s.workers| ==> SparedBy(s.workers[w], id))
    && (forall i :: 0 <= i < |s.output| && s.output[i].id == id ==> s.output[i].isBreak)
    && (forall i :: 0 <= i < |s.collected| && s.collected[i].id == id ==> s.collected[i].isBreak)
  }

  predicate SparedBy(w: Worker, id: nat) {
    (w.Running? ==> w.id != id) && (w.Delivering? && w.report.id == id ==> w.report.isBreak)
  }

  /** Job `id` has been put on the queue and no worker has looked at it yet. */
  predicate Waiting(s: State, id: nat) {
    Work(id) in s.input || exists w :: 0 <= w < |s.workers| && s.workers[w] == Checking(Work(id))
  }

  /** No worker runs or reports job `id`. */
  lemma WaitingIsNowhereElse(c: Config, s: State, id: nat)
    requires c.Valid() && Inv(c, s) && Waiting(s, id)
    ensures forall w :: 0 <= w < |s.workers| ==> SparedBy(s.workers[w], id)
    ensures multiset(Tokens(s.output))[Work(id)] == 0 && multiset(Tokens(s.collected))[Work(id)] == 0
  {
    EachJobInOnePlace(c, s, id);
    HeldBounds(s.workers, Work(id));
    if Work(id) in s.input {
      assert Work(id) in multiset(s.input);
      forall w | 0 <= w < |s.workers|
        ensures SparedBy(s.workers[w], id)
      {
        assert Holds(s.workers[w], Work(id)) == 0;
      }
    } else {
      var w :| 0 <= w < |s.workers| && s.workers[w] == Checking(Work(id));
      assert Holds(s.workers[w], Work(id)) == 1;
      HoldsIsHeld(s.workers, w, Work(id));
      forall v | 0 <= v < |s.workers|
        ensures SparedBy(s.workers[v], id)
      {
        if v != w && Holds(s.workers[v], Work(id)) == 1 {
          HeldTwice(s.workers, v, w, Work(id));
        }
      }
    }
  }

  lemma HeldTwice(ws: seq<Worker>, v: nat, w: nat, t: Token)
    requires v < |ws| && w < |ws| && v != w && Holds(ws[v], t) == 1 && Holds(ws[w], t) == 1
    ensures Held(ws, t) >= 2
  {
    HeldUpdate(ws, v, Idle, t);
    HoldsIsHeld(ws[v := Idle], w, t);
  }

  lemma WaitingIsSpared(c: Config, s: State, id: nat)
    requires c.Valid() && Inv(c, s) && s.threadExit && Waiting(s, id)
    ensures Spared(s, id)
  {
    WaitingIsNowhereElse(c, s, id);
    NotReported(s.output, id);
    NotReported(s.collected, id);
  }

  lemma NotReported(rs: seq<Report>, id: nat)
    ensures multiset(Tokens(rs))[Work(id)] == 0 ==> forall i :: 0 <= i < |rs| ==> rs[i].id != id
  {
    if multiset(Tokens(rs))[Work(id)] == 0 {
      forall i | 0 <= i < |rs|
        ensures rs[i].id != id
      {
        assert Tokens(rs)[i] in multiset(Tokens(rs));
      }
    }
  }

  lemma StaysSpared(c: Config, s: State, step: Step, id: nat)
    requires c.Valid() && Spared(s, id) && Enabled(c, s, step)
    ensures Spared(Apply(c, s, step), id)
  {
    if step.Get? || step.Check? || step.Finish? || step.Deliver? {
      assert SparedBy(s.workers[step.w], id);
    }
  }

  lemma {:induction false} SparedToTheEnd(c: Config, s: State, steps: seq<Step>, id: nat)
    requires c.Valid() && Spared(s, id) && IsRun(c, s, steps)
    ensures Spared(After(c, s, steps), id)
    decreases |steps|
  {
    if steps != [] {
      StaysSpared(c, s, steps[0], id);
      SparedToTheEnd(c, Apply(c, s, steps[0]), steps[1..], id);
    }
  }

  lemma {:induction false} RunConcat(c: Config, s: State, a: seq<Step>, b: seq<Step>)
    requires c.Valid() && IsRun(c, s, a + b)
    ensures IsRun(c, s, a) && IsRun(c, After(c, s, a), b)
    ensures After(c, s, a + b) == After(c, After(c, s, a), b)
    decreases |a|
  {
    if a == [] {
      assert a + b == b;
    } else {
      assert (a + b)[0] == a[0] && (a + b)[1..] == a[1..] + b;
      RunConcat(c, Apply(c, s, a[0]), a[1..], b);
    }
  }

  /** A job that no worker has looked at when the interrupt arrives, queued or just taken, is never
      run: it comes back unprocessed in every continuation, and the runner exits with 1. */
  lemma WaitingJobsAreHandedBack(c: Config, before: seq<Step>, later: seq<Step>, id: nat)
    requires Complete(c, before + later) && IsRun(c, Init(c), before) && id < |c.jobs|
    requires After(c, Init(c), before).threadExit && Waiting(After(c, Init(c), before), id)
    ensures forall i :: 0 <= i < |Collected(c, before + later)| && Collected(c, before + later)[i].id == id ==>
      Collected(c, before + later)[i].isBreak
    ensures Summarise(Collected(c, before + later), |c.jobs|).exitCode == 1
  {
    var s := After(c, Init(c), before);
    InitInv(c);
    RunInv(c, Init(c), before);
    WaitingIsSpared(c, s, id);
    RunConcat(c, Init(c), before, later);
    SparedToTheEnd(c, s, later, id);
    var i := EveryJobReturns(c, before + later, id);
    EveryJobAccountedFor(c, before + later);
    assert !Succeeded(Collected(c, before + later)[i]);
  }

  /** The jobs that are inside run_job_synchronously. */
  function RunningIds(ws: seq<Worker>): set<nat> {
    if ws == [] then {}
    else
      var k := |ws| - 1;
      RunningIds(ws[..k]) + if ws[k].Running? then {ws[k].id} else {}
  }

  lemma {:induction false} RunningIdsSpec(ws: seq<Worker>)
    ensures |RunningIds(ws)| <= |ws|
    ensures forall w :: 0 <= w < |ws| && ws[w].Running? ==> ws[w].id in RunningIds(ws)
    ensures forall id :: id in RunningIds(ws) ==> Running(id) in ws
  {
    if ws != [] {
      var k := |ws| - 1;
      RunningIdsSpec(ws[..k]);
      assert ws == ws[..k] + [ws[k]];
    }
  }

  /** A report is handed back untouched, or what a sequential run says, or of a job in `running`; that
      one may have any outcome, but it has been processed. */
  predicate Explained(c: Config, running: set<nat>, r: Report)
    requires c.Valid()
  {
    && r.id < |c.jobs|
    && r.job == c.jobs[r.id]
    && (|| (r.isBreak && r.outcome == NOT_RUN)
        || (!r.isBreak && (r == c.Expected(r.id) || r.id in running)))
  }

  predicate ExplainedWorker(c: Config, running: set<nat>, w: Worker)
    requires c.Valid()
  {
    && (w.Delivering? ==> Explained(c, running, w.report))
    && (w.Running? ==> w.id in running && w.id < |c.jobs|)
  }

  predicate AllExplained(c: Config, running: set<nat>, s: State)
    requires c.Valid()
  {
    && s.threadExit
    && (forall w :: 0 <= w < |s.workers| ==> ExplainedWorker(c, running, s.workers[w]))
    && (forall i :: 0 <= i < |s.output| ==> Explained(c, running, s.output[i]))
    && (forall i :: 0 <= i < |s.collected| ==> Explained(c, running, s.collected[i]))
  }

  lemma StaysExplained(c: Config, running: set<nat>, s: State, step: Step)
    requires c.Valid() && AllExplained(c, running, s) && Enabled(c, s, step)
    ensures AllExplained(c, running, Apply(c, s, step))
  {
    if step.Get? || step.Check? || step.Finish? || step.Deliver? {
      assert ExplainedWorker(c, running, s.workers[step.w]);
      assert ExplainedWorker(c, running, Apply(c, s, step).workers[step.w]);
    }
  }

  lemma {:induction false} ExplainedToTheEnd(c: Config, running: set<nat>, s: State, steps: seq<Step>)
    requires c.Valid() && AllExplained(c, running, s) && IsRun(c, s, steps)
    ensures AllExplained(c, running, After(c, s, steps))
    decreases |steps|
  {
    if steps != [] {
      StaysExplained(c, running, s, steps[0]);
      ExplainedToTheEnd(c, running, Apply(c, s, steps[0]), steps[1..]);
    }
  }

  /** What an interrupt can change: of the reports of an interrupted run, each is handed back
      untouched, or is what a sequential run says, or belongs to one of the at most `processors` jobs
      that were running when the interrupt arrived. */
  lemma {:induction false} InterruptChangesOnlyTheRunning(c: Config, before: seq<Step>, later: seq<Step>)
    requires Complete(c, before + [Interrupt] + later) && IsRun(c, Init(c), before)
    requires !After(c, Init(c), before).threadExit
    ensures
      var running := RunningIds(After(c, Init(c), before).workers);
      && |running| <= c.processors
      && (forall id :: id in running <==> Running(id) in After(c, Init(c), before).workers)
      && forall r :: r in Collected(c, before + [Interrupt] + later) ==> Explained(c, running, r)
  {
    var s := After(c, Init(c), before);
    var running := RunningIds(s.workers);
    InitInv(c);
    RunInv(c, Init(c), before);
    RunningIdsSpec(s.workers);
    var s' := s.(threadExit := true);
    RunConcat(c, Init(c), before + [Interrupt], later);
    RunConcat(c, Init(c), before, [Interrupt]);
    assert After(c, s, [Interrupt]) == Apply(c, s, Interrupt) == s';
    forall w | 0 <= w < |s.workers|
      ensures ExplainedWorker(c, running, s.workers[w])
    {
      assert HonestWorker(c, false, s.workers[w]);
    }
    ExplainedToTheEnd(c, running, s', later);
  }

  // ----- Exactly which jobs an interrupt hands back

  /** No worker has looked at job `id`: it is queued, just taken, or not put on the queue yet. */
  predicate Untaken(s: State, id: nat) {
    Waiting(s, id) || (s.phase.Dispatching? && s.phase.sent <= id)
  }

  lemma UnsentIsNowhere(c: Config, s: State, id: nat)
    requires c.Valid() && Inv(c, s) && s.phase.Dispatching? && s.phase.sent <= id < |c.jobs|
    ensures Occurrences(s, Work(id)) == 0
  {
    assert forall i :: 0 <= i < s.phase.sent ==> Script(c)[i] == Work(i);
    assert Work(id) !in Script(c)[..s.phase.sent];
  }

  lemma UntakenIsSpared(c: Config, s: State, id: nat)
    requires c.Valid() && Inv(c, s) && s.threadExit && id < |c.jobs| && Untaken(s, id)
    ensures Spared(s, id)
  {
    if Waiting(s, id) {
      WaitingIsSpared(c, s, id);
    } else {
      UnsentIsNowhere(c, s, id);
      HeldBounds(s.workers, Work(id));
      forall w | 0 <= w < |s.workers|
        ensures SparedBy(s.workers[w], id)
      {
        assert Holds(s.workers[w], Work(id)) == 0;
      }
      NotReported(s.output, id);
      NotReported(s.collected, id);
    }
  }

  /** The worker runs job `id` or has run it. */
  predicate KeptBy(w: Worker, id: nat) {
    w == Running(id) || (w.Delivering? && w.report.id == id && !w.report.isBreak)
  }

  /** Job `id` is running, or its report is on the way or collected, as processed. */
  predicate Kept(s: State, id: nat) {
    || (exists w :: 0 <= w < |s.workers| && KeptBy(s.workers[w], id))
    || (exists r :: r in s.output && r.id == id && !r.isBreak)
    || (exists r :: r in s.collected && r.id == id && !r.isBreak)
  }

  lemma TokenOfReport(rs: seq<Report>, id: nat) returns (r: Report)
    requires Work(id) in multiset(Tokens(rs))
    ensures r in rs && r.id == id
  {
    assert Work(id) in Tokens(rs);
    var i :| 0 <= i < |Tokens(rs)| && Tokens(rs)[i] == Work(id);
    r := rs[i];
  }

  lemma TakenIsKept(c: Config, s: State, id: nat)
    requires c.Valid() && Inv(c, s) && !s.threadExit && id < |c.jobs| && !Untaken(s, id)
    ensures Kept(s, id)
  {
    assert Script(c)[..Sent(c, s)][id] == Work(id);
    assert Occurrences(s, Work(id)) > 0;
    HeldBounds(s.workers, Work(id));
    if Held(s.workers, Work(id)) > 0 {
      var w :| 0 <= w < |s.workers| && Holds(s.workers[w], Work(id)) != 0;
      assert HonestWorker(c, false, s.workers[w]);
      assert KeptBy(s.workers[w], id);
    } else if Work(id) in multiset(Tokens(s.output)) {
      var r := TokenOfReport(s.output, id);
      assert Honest(c, false, r);
    } else {
      var r := TokenOfReport(s.collected, id);
      assert Honest(c, false, r);
    }
  }

  lemma StaysKept(c: Config, s: State, step: Step, id: nat)
    requires c.Valid() && Kept(s, id) && Enabled(c, s, step)
    ensures Kept(Apply(c, s, step), id)
  {
    var t := Apply(c, s, step);
    if w :| 0 <= w < |s.workers| && KeptBy(s.workers[w], id) {
      if step.Deliver? && step.w == w {
        assert t.output[|s.output|] == s.workers[w].report;
      } else {
        assert KeptBy(t.workers[w], id);
      }
    } else if r :| r in s.output && r.id == id && !r.isBreak {
      if step.Collect? {
        assert s.output == [s.output[0]] + s.output[1..];
        assert r == s.output[0] || r in t.output;
      }
      assert r in t.output || r in t.collected;
    } else {
      var r :| r in s.collected && r.id == id && !r.isBreak;
      assert r in t.collected;
    }
  }

  lemma {:induction false} KeptToTheEnd(c: Config, s: State, steps: seq<Step>, id: nat)
    requires c.Valid() && Kept(s, id) && IsRun(c, s, steps)
    ensures Kept(After(c, s, steps), id)
    decreases |steps|
  {
    if steps != [] {
      StaysKept(c, s, steps[0], id);
      KeptToTheEnd(c, Apply(c, s, steps[0]), steps[1..], id);
    }
  }

  /** Exactly which jobs an interrupt hands back: whatever happens afterwards, the report of a job is
      marked as a break if and only if no worker had looked at the job when the interrupt arrived. So
      a job that was running comes back as processed. */
  lemma {:induction false} HandedBackIff(c: Config, before: seq<Step>, later: seq<Step>, id: nat) returns (p: nat)
    requires Complete(c, before + [Interrupt] + later) && IsRun(c, Init(c), before) && id < |c.jobs|
    requires !After(c, Init(c), before).threadExit
    ensures
      var rs := Collected(c, before + [Interrupt] + later);
      && p < |rs| && rs[p].id == id
      && (forall j :: 0 <= j < |rs| && j != p ==> rs[j].id != id)
      && (rs[p].isBreak <==> Untaken(After(c, Init(c), before), id))
  {
    var s := After(c, Init(c), before);
    var s' := s.(threadExit := true);
    var end := After(c, Init(c), before + [Interrupt] + later);
    InitInv(c);
    RunInv(c, Init(c), before);
    RunConcat(c, Init(c), before + [Interrupt], later);
    RunConcat(c, Init(c), before, [Interrupt]);
    assert After(c, s, [Interrupt]) == Apply(c, s, Interrupt) == s';
    p := EveryJobReturns(c, before + [Interrupt] + later, id);
    if Untaken(s, id) {
      StepInv(c, s, Interrupt);
      UntakenIsSpared(c, s', id);
      SparedToTheEnd(c, s', later, id);
    } else {
      TakenIsKept(c, s, id);
      StaysKept(c, s, Interrupt, id);
      KeptToTheEnd(c, s', later, id);
      RunInv(c, Init(c), before + [Interrupt] + later);
      FinalState(c, end);
      var r :| r in end.collected && r.id == id && !r.isBreak;
    }
  }

  // ----- Undisturbed runs, job by job

  /** In an undisturbed run every job is processed, and unless it is to be skipped its report carries
      what it returned. */
  lemma {:induction false} UndisturbedReports(c: Config, steps: seq<Step>)
    requires Complete(c, steps) && Interrupt !in steps
    ensures forall r :: r in Collected(c, steps) ==>
      r.id < |c.jobs| && r.job == c.jobs[r.id] && !r.isBreak && (r.job.isSkip || r.outcome == c.outcomes[r.id])
  {
    CollectedIsPermutation(c, steps);
    forall r | r in Collected(c, steps)
      ensures r.id < |c.jobs| && r == c.Expected(r.id)
    {
      assert r in multiset(c.Sequential());
    }
  }

  /** The exit code of an undisturbed run is 0 exactly if every job is skipped or returned 0. */
  lemma {:induction false} UndisturbedExitCode(c: Config, steps: seq<Step>)
    requires Complete(c, steps) && Interrupt !in steps
    ensures Summarise(Collected(c, steps), |c.jobs|).exitCode == 0 <==>
      forall i :: 0 <= i < |c.jobs| ==> c.jobs[i].isSkip || c.outcomes[i].code == 0
  {
    var rs := Collected(c, steps);
    UndisturbedReports(c, steps);
    EveryJobAccountedFor(c, steps);
    if i :| 0 <= i < |c.jobs| && !(c.jobs[i].isSkip || c.outcomes[i].code == 0) {
      var p := EveryJobReturns(c, steps, i);
      assert rs[p] in rs && !Succeeded(rs[p]);
    } else {
      forall j | 0 <= j < |rs|
        ensures Succeeded(rs[j])
      {
        assert rs[j] in rs;
      }
    }
  }

  // ----- The queues are first in, first out

  /** What one step takes from the input queue. */
  function TakenBy(s: State, step: Step): seq<Token>
    requires step.Get? ==> s.input != []
  {
    if step.Get? then [s.input[0]] else []
  }

  /** The tokens that workers take during `steps`, in that order. */
  function Taken(c: Config, s: State, steps: seq<Step>): seq<Token>
    requires c.Valid() && IsRun(c, s, steps)
    decreases |steps|
  {
    if steps == [] then []
    else TakenBy(s, steps[0]) + Taken(c, Apply(c, s, steps[0]), steps[1..])
  }

  function DeliveredBy(s: State, step: Step): seq<Report>
    requires step.Deliver? ==> step.w < |s.workers| && s.workers[step.w].Delivering?
  {
    if step.Deliver? then [s.workers[step.w].report] else []
  }

  /** The reports that workers put on the output queue during `steps`, in that order. */
  function Delivered(c: Config, s: State, steps: seq<Step>): seq<Report>
    requires c.Valid() && IsRun(c, s, steps)
    decreases |steps|
  {
    if steps == [] then []
    else DeliveredBy(s, steps[0]) + Delivered(c, Apply(c, s, steps[0]), steps[1..])
  }

  lemma {:induction false} StepKeepsOrder(c: Config, s: State, step: Step)
    requires c.Valid() && Enabled(c, s, step) && Sent(c, s) <= |Script(c)|
    ensures
      var t := Apply(c, s, step);
      && Sent(c, s) <= Sent(c, t) <= |Script(c)|
      && s.input + Script(c)[Sent(c, s)..Sent(c, t)] == TakenBy(s, step) + t.input
  {
    var script, a := Script(c), Sent(c, s);
    if step.Put? {
      assert script[a..a + 1] == [script[a]];
    } else {
      assert script[a..a] == [];
    }
  }

  lemma Regroup<T>(a: seq<T>, b: seq<T>, c: seq<T>, d: seq<T>, e: seq<T>, f: seq<T>, g: seq<T>)
    requires a + b == c + d && d + e == f + g
    ensures a + (b + e) == c + f + g
  {
    assert a + (b + e) == (a + b) + e;
    assert (c + d) + e == c + (d + e);
    assert c + (f + g) == c + f + g;
  }

  /** Nothing overtakes in a queue: what has been sent is what has been taken followed by what is still
      queued, and likewise for reports. */
  lemma {:induction false} InputKeepsOrder(c: Config, s: State, steps: seq<Step>)
    requires c.Valid() && IsRun(c, s, steps) && Sent(c, s) <= |Script(c)|
    ensures
      var t := After(c, s, steps);
      && Sent(c, s) <= Sent(c, t) <= |Script(c)|
      && s.input + Script(c)[Sent(c, s)..Sent(c, t)] == Taken(c, s, steps) + t.input
    decreases |steps|
  {
    var script, a := Script(c), Sent(c, s);
    if steps == [] {
      assert script[a..a] == [];
    } else {
      var u, t := Apply(c, s, steps[0]), After(c, s, steps);
      var m, z := Sent(c, u), Sent(c, t);
      StepKeepsOrder(c, s, steps[0]);
      InputKeepsOrder(c, u, steps[1..]);
      assert script[a..z] == script[a..m] + script[m..z];
      Regroup(s.input, script[a..m], TakenBy(s, steps[0]), u.input, script[m..z], Taken(c, u, steps[1..]), t.input);
    }
  }

  lemma StepKeepsReports(c: Config, s: State, step: Step)
    requires c.Valid() && Enabled(c, s, step)
    ensures
      var t := Apply(c, s, step);
      s.collected + s.output + DeliveredBy(s, step) == t.collected + t.output
  {
    if step.Collect? {
      assert s.output == [s.output[0]] + s.output[1..];
    }
  }

  lemma {:induction false} ReportsKeepOrder(c: Config, s: State, steps: seq<Step>)
    requires c.Valid() && IsRun(c, s, steps)
    ensures
      var t := After(c, s, steps);
      s.collected + s.output + Delivered(c, s, steps) == t.collected + t.output
    decreases |steps|
  {
    if steps != [] {
      var u := Apply(c, s, steps[0]);
      ReportsKeepOrder(c, u, steps[1..]);
      StepKeepsReports(c, s, steps[0]);
      assert s.collected + s.output + (DeliveredBy(s, steps[0]) + Delivered(c, u, steps[1..]))
          == s.collected + s.output + DeliveredBy(s, steps[0]) + Delivered(c, u, steps[1..]);
    }
  }

  /** Workers take the jobs in the order in which they are listed, and reports are collected in the
      order in which they are delivered. */
  lemma {:induction false} FirstInFirstOut(c: Config, steps: seq<Step>)
    requires c.Valid() && IsRun(c, Init(c), steps)
    ensures forall i :: 0 <= i < |Taken(c, Init(c), steps)| ==>
      Taken(c, Init(c), steps)[i] == if i < |c.jobs| then Work(i) else Break
    ensures Collected(c, steps) <= Delivered(c, Init(c), steps)
  {
    var t := After(c, Init(c), steps);
    InputKeepsOrder(c, Init(c), steps);
    ReportsKeepOrder(c, Init(c), steps);
    var sent := Script(c)[0..Sent(c, t)];
    assert [] + sent == sent == Taken(c, Init(c), steps) + t.input;
    assert [] + [] + Delivered(c, Init(c), steps) == Delivered(c, Init(c), steps);
    forall i | 0 <= i < |Taken(c, Init(c), steps)|
      ensures Taken(c, Init(c), steps)[i] == if i < |c.jobs| then Work(i) else Break
    {
      assert Taken(c, Init(c), steps)[i] == sent[i] == Script(c)[i];
    }
  }
}

/** Chains of invocations with --rerun-failed, each reading the results file of the one before. */
module Rerun {
  import opened Jobs
  import opened Runner
  import opened Collector
  import opened Runs

  /** The result under which a report is entered in the results file. For a suite, Pass stands for PASS
      or SKIP in the file that it wrote itself, and Fail for anything else there. */
  datatype Entry = Pass | Fail | Valgr | Crash | Skip

  /** An example is entered by its status. A suite's own file is copied for the codes 0, 1 and 2, with
      VALGR written over its result for 2. */
  function Written(r: Report): Entry {
    if r.job.isSkip then Skip
    else if IsExample(r.job) then
      match StatusOf(r)
      case Passed => Pass
      case Failed => Fail
      case Valgrind => Valgr
      case _ => Crash
    else if r.outcome.code !in {0, 1, 2} then Crash
    else if StatusOf(r).Valgrind? then Valgr
    else if r.outcome.xmlPasses then Pass
    else Fail
  }

  /** Whether the results file lists this report with PASS or SKIP. A report that was handed back is
      not listed at all. */
  predicate RecordedFine(r: Report) {
    !r.isBreak && Written(r) in {Pass, Skip}
  }

  /** So a processed report is listed with PASS or SKIP exactly if it was skipped, if it is of an example
      that returned 0, or of a suite that returned 0 or 1 and whose own file says so. */
  lemma RecordedIff(r: Report)
    ensures RecordedFine(r) <==>
      && !r.isBreak
      && (r.job.isSkip ||
          if r.job.kind.Suite? then r.outcome.code in {0, 1} && r.outcome.xmlPasses else r.outcome.code == 0)
  {
  }

  /** The names loaded for suites (`examples` false) or for examples, in file order. */
  function Loaded(rs: seq<Report>, examples: bool): seq<string> {
    if rs == [] then []
    else
      var k := |rs| - 1;
      Loaded(rs[..k], examples) +
      if RecordedFine(rs[k]) && IsExample(rs[k].job) == examples then [rs[k].job.name] else []
  }

  lemma {:induction false} LoadedIff(rs: seq<Report>, examples: bool, name: string)
    ensures name in Loaded(rs, examples) <==>
      exists i :: 0 <= i < |rs| && RecordedFine(rs[i]) && IsExample(rs[i].job) == examples && rs[i].job.name == name
  {
    if rs != [] {
      var k := |rs| - 1;
      LoadedIff(rs[..k], examples, name);
      assert forall i :: 0 <= i < k ==> rs[..k][i] == rs[i];
    }
  }

  /** The loaded names, by return codes. */
  lemma LoadedByCode(rs: seq<Report>, examples: bool, name: string)
    ensures name in Loaded(rs, examples) <==> exists i ::
      && 0 <= i < |rs| && !rs[i].isBreak && rs[i].job.name == name && rs[i].job.kind.Suite? == !examples
      && (rs[i].job.isSkip ||
          if examples then rs[i].outcome.code == 0 else rs[i].outcome.code in {0, 1} && rs[i].outcome.xmlPasses)
  {
    LoadedIff(rs, examples, name);
    forall i | 0 <= i < |rs|
      ensures RecordedFine(rs[i]) <==>
        && !rs[i].isBreak
        && (rs[i].job.isSkip ||
            if IsExample(rs[i].job) then rs[i].outcome.code == 0
            else rs[i].outcome.code in {0, 1} && rs[i].outcome.xmlPasses)
    {
      RecordedIff(rs[i]);
    }
  }

  /** One invocation: its jobs, its interleaving, and the skips it decides on its own (valgrind,
      fullness, missing bindings). */
  datatype Invocation = Invocation(c: Config, steps: seq<Step>, ownSkips: seq<bool>) {
    ghost predicate Valid() {
      Complete(c, steps) && |ownSkips| == |c.jobs|
    }

    ghost predicate Undisturbed() {
      Valid() && Interrupt !in steps
    }

    predicate Executes(i: nat)
      requires i < |c.jobs|
    {
      !c.jobs[i].isSkip
    }
  }

  /** The first invocation skips on its own account only. */
  ghost predicate First(v: Invocation) {
    v.Valid() && forall i :: 0 <= i < |v.c.jobs| ==> v.c.jobs[i].isSkip == v.ownSkips[i]
  }

  /** `v` is a rerun of the same tests after `u`. Python examples are not looked up. */
  ghost predicate Follows(u: Invocation, v: Invocation)
    requires u.Valid()
  {
    && v.Valid() && |v.c.jobs| == |u.c.jobs|
    && forall i :: 0 <= i < |v.c.jobs| ==>
         && v.c.jobs[i].name == u.c.jobs[i].name && v.c.jobs[i].kind == u.c.jobs[i].kind
         && v.c.jobs[i].isSkip ==
            (v.ownSkips[i] ||
             (!v.c.jobs[i].kind.PyExample? &&
              v.c.jobs[i].name in Loaded(Collected(u.c, u.steps), IsExample(v.c.jobs[i]))))
  }

  ghost predicate Chain(vs: seq<Invocation>) {
    && vs != [] && First(vs[0])
    && (forall k :: 0 <= k < |vs| ==> vs[k].Undisturbed())
    && (forall k :: 0 < k < |vs| ==> Follows(vs[k - 1], vs[k]))
  }

  lemma ReportsOfRun(v: Invocation)
    requires v.Undisturbed()
    ensures forall i :: 0 <= i < |v.c.jobs| ==> v.c.Expected(i) in Collected(v.c, v.steps)
    ensures forall r :: r in Collected(v.c, v.steps) ==> r.id < |v.c.jobs| && r == v.c.Expected(r.id)
  {
    CollectedIsPermutation(v.c, v.steps);
    forall i | 0 <= i < |v.c.jobs|
      ensures v.c.Expected(i) in Collected(v.c, v.steps)
    {
      assert v.c.Sequential()[i] == v.c.Expected(i);
      assert v.c.Expected(i) in multiset(Collected(v.c, v.steps));
    }
    forall r | r in Collected(v.c, v.steps)
      ensures r.id < |v.c.jobs| && r == v.c.Expected(r.id)
    {
      assert r in multiset(v.c.Sequential());
    }
  }

  /** A suite or C++ example runs in a rerun only if it ran the time before and was not recorded
      PASS; so the set that runs never grows. */
  lemma NeverGrows(u: Invocation, v: Invocation, i: nat)
    requires u.Undisturbed() && Follows(u, v) && i < |v.c.jobs| && !v.c.jobs[i].kind.PyExample?
    requires v.Executes(i)
    ensures u.Executes(i) && !RecordedFine(u.c.Expected(i))
  {
    ReportsOfRun(u);
    var rs := Collected(u.c, u.steps);
    LoadedIff(rs, IsExample(v.c.jobs[i]), v.c.jobs[i].name);
    assert u.c.Expected(i) in rs;
    var j :| 0 <= j < |rs| && rs[j] == u.c.Expected(i);
  }

  /** A test recorded PASS in any invocation of a chain is not run in any later one. */
  lemma {:induction false} PassedIsNeverRerun(vs: seq<Invocation>, k: nat, m: nat, i: nat)
    requires Chain(vs) && k < m < |vs| && i < |vs[m].c.jobs| && !vs[m].c.jobs[i].kind.PyExample?
    requires vs[m].Executes(i)
    ensures |vs[k].c.jobs| == |vs[m].c.jobs| && vs[k].Executes(i) && !RecordedFine(vs[k].c.Expected(i))
    decreases m
  {
    assert Follows(vs[m - 1], vs[m]);
    NeverGrows(vs[m - 1], vs[m], i);
    if k < m - 1 {
      PassedIsNeverRerun(vs, k, m - 1, i);
    }
  }

  /** No other test shares test `i`'s name in its section of the results file. */
  predicate NameIsUnique(v: Invocation, i: nat)
    requires i < |v.c.jobs|
  {
    forall j :: 0 <= j < |v.c.jobs| && j != i && IsExample(v.c.jobs[j]) == IsExample(v.c.jobs[i]) ==>
      v.c.jobs[j].name != v.c.jobs[i].name
  }

  /** Test `i` is left to run by each of the first `m` invocations' own skips, and in each of them an
      example returns other than 0, and a suite other than 0 or 1 or writes a file without PASS and SKIP. */
  predicate FailedThroughout(vs: seq<Invocation>, m: nat, i: nat)
    requires m <= |vs|
  {
    forall k :: 0 <= k < m ==>
      && i < |vs[k].c.jobs| == |vs[k].ownSkips| == |vs[k].c.outcomes|
      && !vs[k].ownSkips[i]
      && if vs[k].c.jobs[i].kind.Suite? then !(vs[k].c.outcomes[i].code in {0, 1} && vs[k].c.outcomes[i].xmlPasses)
         else vs[k].c.outcomes[i].code != 0
  }

  lemma {:induction false} SameTests(vs: seq<Invocation>, m: nat, i: nat)
    requires Chain(vs) && m < |vs| && i < |vs[0].c.jobs|
    ensures |vs[m].c.jobs| == |vs[0].c.jobs|
    ensures vs[m].c.jobs[i].name == vs[0].c.jobs[i].name && vs[m].c.jobs[i].kind == vs[0].c.jobs[i].kind
  {
    if m > 0 {
      assert Follows(vs[m - 1], vs[m]);
      SameTests(vs, m - 1, i);
    }
  }

  lemma RerunIffFailed(u: Invocation, v: Invocation, i: nat)
    requires u.Undisturbed() && Follows(u, v) && i < |v.c.jobs| && !v.c.jobs[i].kind.PyExample?
    requires NameIsUnique(u, i)
    ensures v.Executes(i) <==> !v.ownSkips[i] && u.Executes(i) && !RecordedFine(u.c.Expected(i))
  {
    if v.Executes(i) {
      NeverGrows(u, v, i);
    } else if !v.ownSkips[i] {
      ReportsOfRun(u);
      var rs := Collected(u.c, u.steps);
      LoadedIff(rs, IsExample(v.c.jobs[i]), v.c.jobs[i].name);
      var j :| 0 <= j < |rs| && RecordedFine(rs[j]) && IsExample(rs[j].job) == IsExample(v.c.jobs[i])
            && rs[j].job.name == v.c.jobs[i].name;
      assert rs[j] in rs;
      assert rs[j] == u.c.Expected(rs[j].id);
      assert rs[j].id == i;
    }
  }

  /** Which tests a chain of reruns executes: in invocation `m` exactly those that no invocation up
      to `m` skips on its own and that every earlier one failed to record as PASS. */
  lemma {:induction false} RunsExactlyTheFailed(vs: seq<Invocation>, m: nat, i: nat)
    requires Chain(vs) && m < |vs| && i < |vs[0].c.jobs| && !vs[0].c.jobs[i].kind.PyExample?
    requires NameIsUnique(vs[0], i)
    ensures |vs[m].c.jobs| == |vs[0].c.jobs|
    ensures vs[m].Executes(i) <==> !vs[m].ownSkips[i] && FailedThroughout(vs, m, i)
    decreases m
  {
    SameTests(vs, m, i);
    if m > 0 {
      var u := vs[m - 1];
      assert Follows(u, vs[m]) && u.Undisturbed();
      RunsExactlyTheFailed(vs, m - 1, i);
      forall j | 0 <= j < |u.c.jobs|
        ensures u.c.jobs[j].name == vs[0].c.jobs[j].name && u.c.jobs[j].kind == vs[0].c.jobs[j].kind
      {
        SameTests(vs, m - 1, j);
      }
      RerunIffFailed(u, vs[m], i);
      RecordedIff(u.c.Expected(i));
    }
  }

  /** A test that ran and failed does run again, and one that passed does not: after an undisturbed run
      an example runs again exactly if it did not return 0, and a suite exactly if it did not return 0
      or 1 with a results file that says PASS or SKIP. */
  lemma FailedRunsAgain(u: Invocation, v: Invocation, i: nat)
    requires u.Undisturbed() && Follows(u, v) && i < |v.c.jobs| && NameIsUnique(u, i)
    requires u.Executes(i) && !v.ownSkips[i]
    ensures match v.c.jobs[i].kind
      case Example => v.Executes(i) <==> u.c.outcomes[i].code != 0
      case Suite => v.Executes(i) <==> u.c.outcomes[i].code !in {0, 1} || !u.c.outcomes[i].xmlPasses
      case PyExample => v.Executes(i)
  {
    if !v.c.jobs[i].kind.PyExample? {
      RerunIffFailed(u, v, i);
      RecordedIff(u.c.Expected(i));
    }
  }

  /** The results files say PASS exactly for return code 0. */
  predicate RecordsAgree(c: Config)
    requires c.Valid()
  {
    forall i :: 0 <= i < |c.jobs| && c.jobs[i].kind.Suite? ==>
      (c.outcomes[i].code in {0, 1} ==> (c.outcomes[i].xmlPasses <==> c.outcomes[i].code == 0))
  }

  /** With records that agree with the return codes: a test that ran and returned 0 in one
      invocation of a chain does not run in any later one. */
  lemma ReturnedZeroIsNeverRerun(vs: seq<Invocation>, k: nat, m: nat, i: nat)
    requires Chain(vs) && k < m < |vs| && RecordsAgree(vs[k].c)
    requires i < |vs[k].c.jobs| && !vs[k].c.jobs[i].kind.PyExample?
    requires vs[k].Executes(i) && vs[k].c.outcomes[i].code == 0
    ensures i < |vs[m].c.jobs| && !vs[m].Executes(i)
  {
    assert First(vs[0]);
    ChainLength(vs, k);
    SameTests(vs, k, i);
    SameTests(vs, m, i);
    if vs[m].Executes(i) {
      PassedIsNeverRerun(vs, k, m, i);
    }
  }

  lemma {:induction false} ChainLength(vs: seq<Invocation>, m: nat)
    requires Chain(vs) && m < |vs|
    ensures |vs[m].c.jobs| == |vs[0].c.jobs|
  {
    if m > 0 {
      assert Follows(vs[m - 1], vs[m]);
      ChainLength(vs, m - 1);
    }
  }

  // ----- Chains with interrupts

  /** The report of test `i`, in any run. */
  ghost function ReportOf(v: Invocation, i: nat): (r: Report)
    requires v.Valid() && i < |v.c.jobs|
    ensures r in Collected(v.c, v.steps) && r.id == i && r.job == v.c.jobs[i]
    ensures forall q :: q in Collected(v.c, v.steps) && q.id == i ==> q == r
  {
    var p := Position(v, i);
    Collected(v.c, v.steps)[p]
  }

  ghost function Position(v: Invocation, i: nat): (p: nat)
    requires v.Valid() && i < |v.c.jobs|
    ensures var rs := Collected(v.c, v.steps);
      p < |rs| && rs[p].id == i && rs[p].job == v.c.jobs[i] && forall j :: 0 <= j < |rs| && j != p ==> rs[j].id != i
  {
    PositionExists(v, i);
    var p: nat :| IsPosition(v, i, p);
    p
  }

  ghost predicate IsPosition(v: Invocation, i: nat, p: nat)
    requires v.Valid() && i < |v.c.jobs|
  {
    var rs := Collected(v.c, v.steps);
    p < |rs| && rs[p].id == i && rs[p].job == v.c.jobs[i] && forall j :: 0 <= j < |rs| && j != p ==> rs[j].id != i
  }

  lemma PositionExists(v: Invocation, i: nat)
    requires v.Valid() && i < |v.c.jobs|
    ensures exists p: nat :: IsPosition(v, i, p)
  {
    var p := EveryJobReturns(v.c, v.steps, i);
    assert IsPosition(v, i, p);
  }

  lemma ReportsAreOfJobs(v: Invocation)
    requires v.Valid()
    ensures forall r :: r in Collected(v.c, v.steps) ==> r.id < |v.c.jobs| && r.job == v.c.jobs[r.id]
  {
    InitInv(v.c);
    RunInv(v.c, Init(v.c), v.steps);
    var s := After(v.c, Init(v.c), v.steps);
    assert forall j :: 0 <= j < |s.collected| ==> Honest(v.c, s.threadExit, s.collected[j]);
  }

  /** Which tests a rerun executes after any run, interrupted or not: those it does not skip on its
      own that the previous run did not record as PASS or SKIP. A test that the previous run was to
      skip runs again exactly if it was handed back. */
  lemma {:induction false} RerunIffNotRecorded(u: Invocation, v: Invocation, i: nat)
    requires u.Valid() && Follows(u, v) && i < |v.c.jobs| && !v.c.jobs[i].kind.PyExample?
    requires NameIsUnique(u, i)
    ensures v.Executes(i) <==> !v.ownSkips[i] && !RecordedFine(ReportOf(u, i))
    ensures !u.Executes(i) ==> (v.Executes(i) <==> !v.ownSkips[i] && ReportOf(u, i).isBreak)
    ensures u.Executes(i) ==>
      var r := ReportOf(u, i);
      v.Executes(i) <==>
        && !v.ownSkips[i]
        && (r.isBreak ||
            if r.job.kind.Suite? then r.outcome.code !in {0, 1} || !r.outcome.xmlPasses else r.outcome.code != 0)
  {
    RecordedIff(ReportOf(u, i));
    var rs := Collected(u.c, u.steps);
    LoadedIff(rs, IsExample(v.c.jobs[i]), v.c.jobs[i].name);
    ReportsAreOfJobs(u);
    if j :| 0 <= j < |rs| && RecordedFine(rs[j]) && IsExample(rs[j].job) == IsExample(v.c.jobs[i]) &&
            rs[j].job.name == v.c.jobs[i].name {
      assert rs[j] in rs;
      assert rs[j].id == i;
      assert rs[j] == ReportOf(u, i);
    } else {
      var p := Position(u, i);
      assert rs[p] in rs;
      assert rs[p] == ReportOf(u, i);
    }
  }

  /** A chain of reruns any of which may be interrupted. */
  ghost predicate AnyChain(vs: seq<Invocation>) {
    && vs != [] && First(vs[0])
    && (forall k :: 0 <= k < |vs| ==> vs[k].Valid())
    && (forall k :: 0 < k < |vs| ==> Follows(vs[k - 1], vs[k]))
  }

  lemma {:induction false} SameTestsInAny(vs: seq<Invocation>, m: nat)
    requires AnyChain(vs) && m < |vs|
    ensures |vs[m].c.jobs| == |vs[0].c.jobs|
    ensures forall j :: 0 <= j < |vs[0].c.jobs| ==>
      vs[m].c.jobs[j].name == vs[0].c.jobs[j].name && vs[m].c.jobs[j].kind == vs[0].c.jobs[j].kind
  {
    if m > 0 {
      assert Follows(vs[m - 1], vs[m]);
      SameTestsInAny(vs, m - 1);
    }
  }

  /** One link of such a chain. */
  lemma LinkOfChain(vs: seq<Invocation>, m: nat, i: nat)
    requires AnyChain(vs) && 0 < m < |vs| && i < |vs[0].c.jobs| && !vs[0].c.jobs[i].kind.PyExample?
    requires NameIsUnique(vs[0], i)
    ensures i < |vs[m - 1].c.jobs| == |vs[m].c.jobs|
    ensures vs[m].Executes(i) <==> !vs[m].ownSkips[i] && !RecordedFine(ReportOf(vs[m - 1], i))
    ensures !vs[m - 1].Executes(i) ==> (vs[m].Executes(i) <==> !vs[m].ownSkips[i] && ReportOf(vs[m - 1], i).isBreak)
  {
    SameTestsInAny(vs, m - 1);
    SameTestsInAny(vs, m);
    assert Follows(vs[m - 1], vs[m]);
    RerunIffNotRecorded(vs[m - 1], vs[m], i);
  }

  /** Test `i` was handed back by no invocation strictly between `k` and `m`. */
  ghost predicate NeverHandedBack(vs: seq<Invocation>, k: nat, m: nat, i: nat)
    requires AnyChain(vs) && m <= |vs| && i < |vs[0].c.jobs|
  {
    forall j :: k < j < m ==> i < |vs[j].c.jobs| && !ReportOf(vs[j], i).isBreak
  }

  /** Test `i` is executed by no invocation after `k` up to and including `m`. */
  ghost predicate NotExecuted(vs: seq<Invocation>, k: nat, m: nat, i: nat)
    requires m < |vs|
  {
    forall j :: k < j <= m ==> i < |vs[j].c.jobs| && !vs[j].Executes(i)
  }

  lemma OneMoreLink(vs: seq<Invocation>, k: nat, m: nat, i: nat)
    requires AnyChain(vs) && k + 1 < m < |vs| && i < |vs[0].c.jobs| && i < |vs[m - 1].c.jobs| == |vs[m].c.jobs|
    ensures NotExecuted(vs, k, m, i) <==> NotExecuted(vs, k, m - 1, i) && !vs[m].Executes(i)
    ensures NeverHandedBack(vs, k, m, i) <==> NeverHandedBack(vs, k, m - 1, i) && !ReportOf(vs[m - 1], i).isBreak
  {
  }

  /** Exactly when a PASS holds: a test recorded as PASS or SKIP by invocation `k`, and skipped by no
      later one on its own, is left alone up to invocation `m` if and only if no invocation in
      between handed it back. */
  lemma {:induction false} PassHoldsIff(vs: seq<Invocation>, k: nat, m: nat, i: nat)
    requires AnyChain(vs) && k < m < |vs| && i < |vs[0].c.jobs| && !vs[0].c.jobs[i].kind.PyExample?
    requires NameIsUnique(vs[0], i)
    requires i < |vs[k].c.jobs| && RecordedFine(ReportOf(vs[k], i))
    requires forall j :: k < j <= m ==> i < |vs[j].ownSkips| && !vs[j].ownSkips[i]
    ensures NotExecuted(vs, k, m, i) <==> NeverHandedBack(vs, k, m, i)
    decreases m
  {
    LinkOfChain(vs, m, i);
    if k < m - 1 {
      PassHoldsIff(vs, k, m - 1, i);
      OneMoreLink(vs, k, m, i);
    }
  }

  /** The same without unique names: a test whose every report was handed back runs again next time,
      whatever earlier runs recorded. */
  lemma HandedBackRunsAgain(u: Invocation, v: Invocation, i: nat)
    requires u.Valid() && Follows(u, v) && i < |v.c.jobs|
    requires forall j ::
      0 <= j < |Collected(u.c, u.steps)| && Collected(u.c, u.steps)[j].job.name == v.c.jobs[i].name ==>
      Collected(u.c, u.steps)[j].isBreak
    ensures v.Executes(i) <==> !v.ownSkips[i]
  {
    LoadedIff(Collected(u.c, u.steps), IsExample(v.c.jobs[i]), v.c.jobs[i].name);
  }

  // ----- A chain that forgets a PASS

  function OneSuite(skip: bool): Config {
    Config([Job("suite", Suite, skip, "")], [Outcome(0, true)], 1)
  }

  /** An undisturbed run of the suite. */
  lemma PlainRun(skip: bool) returns (steps: seq<Step>)
    ensures Complete(OneSuite(skip), steps) && Interrupt !in steps
  {
    InitInv(OneSuite(skip));
    steps := CanFinish(OneSuite(skip), Init(OneSuite(skip)));
  }

  lemma QueuedAtInterrupt(skip: bool)
    ensures
      var c := OneSuite(skip);
      && IsRun(c, Init(c), [Put, Interrupt])
      && After(c, Init(c), [Put, Interrupt]).input == [Work(0)]
      && After(c, Init(c), [Put, Interrupt]).threadExit
  {
    var c := OneSuite(skip);
    var before := [Put, Interrupt];
    var s1 := Apply(c, Init(c), Put);
    assert s1.input == [] + [Work(0)];
    var s := Apply(c, s1, Interrupt);
    assert before[1..] == [Interrupt] && before[1..][1..] == [];
    assert IsRun(c, s, []) && IsRun(c, s1, [Interrupt]);
    assert After(c, s1, [Interrupt]) == s;
  }

  /** A run that is interrupted as soon as the suite is queued, so that it is handed back. */
  lemma {:induction false} InterruptedRun(skip: bool) returns (steps: seq<Step>)
    ensures Complete(OneSuite(skip), steps)
    ensures forall j :: 0 <= j < |Collected(OneSuite(skip), steps)| ==> Collected(OneSuite(skip), steps)[j].isBreak
  {
    var c := OneSuite(skip);
    var before := [Put, Interrupt];
    QueuedAtInterrupt(skip);
    InitInv(c);
    RunInv(c, Init(c), before);
    var later := CanFinish(c, After(c, Init(c), before));
    steps := before + later;
    RunJoin(c, Init(c), before, later);
    WaitingJobsAreHandedBack(c, before, later, 0);
    ReportsAreOfJobs(Invocation(c, steps, [skip]));
    assert forall j :: 0 <= j < |Collected(c, steps)| ==> Collected(c, steps)[j] in Collected(c, steps);
  }

  lemma {:induction false} RunJoin(c: Config, s: State, a: seq<Step>, b: seq<Step>)
    requires c.Valid() && IsRun(c, s, a) && IsRun(c, After(c, s, a), b)
    ensures IsRun(c, s, a + b) && After(c, s, a + b) == After(c, After(c, s, a), b)
    decreases |a|
  {
    if a == [] {
      assert a + b == b;
    } else {
      assert (a + b)[0] == a[0] && (a + b)[1..] == a[1..] + b;
      RunJoin(c, Apply(c, s, a[0]), a[1..], b);
    }
  }

  /** A suite passes, is handed back by an interrupted rerun that was to skip it, and runs again. */
  lemma ForgottenPass() returns (vs: seq<Invocation>)
    ensures AnyChain(vs) && |vs| == 3 && forall k :: 0 <= k < 3 ==> |vs[k].c.jobs| == 1
    ensures vs[0].Executes(0) && ReportOf(vs[0], 0).outcome.code == 0 && RecordedFine(ReportOf(vs[0], 0))
    ensures !vs[1].Executes(0) && ReportOf(vs[1], 0).isBreak
    ensures vs[2].Executes(0)
  {
    var run := PlainRun(false);
    var cut := InterruptedRun(true);
    var u, v := Invocation(OneSuite(false), run, [false]), Invocation(OneSuite(true), cut, [false]);
    ReportsOfRun(u);
    assert ReportOf(u, 0) == u.c.Expected(0);
    var us, vs' := Collected(u.c, u.steps), Collected(v.c, v.steps);
    LoadedIff(us, false, "suite");
    LoadedIff(vs', false, "suite");
    var p := Position(u, 0);
    assert us[p] == u.c.Expected(0) && RecordedFine(us[p]);
    assert Follows(u, v) && Follows(v, u);
    vs := [u, v, u];
  }
}
