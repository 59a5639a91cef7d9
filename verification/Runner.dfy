/**
 The protocol of the parallel test runner. The main thread puts one token per job and then one
 break token per worker on a FIFO queue, collects exactly as many reports as there are jobs, and
 joins the workers. Workers take tokens, test the interrupt flag, run or skip the job and report.
 The main thread, the workers and the interrupt interleave arbitrarily.
 */
module Runner {
  import opened Jobs
  import opened Options

  datatype Token = Work(id: nat) | Break

  datatype Worker =
    | Idle                         // blocked on the input queue
    | Checking(token: Token)       // has taken a token, has not looked at it yet
    | Running(id: nat)             // inside run_job_synchronously
    | Delivering(report: Report)   // about to put the job on the output queue
    | Exited

  datatype Phase = Dispatching(sent: nat) | Collecting | Joining(joined: nat)

  datatype State = State(
    phase: Phase,
    input: seq<Token>,
    workers: seq<Worker>,
    output: seq<Report>,
    collected: seq<Report>,
    threadExit: bool)

  datatype Step =
    | Put | Collect | StopCollecting | Join               // main thread
    | Get(w: nat) | Check(w: nat) | Finish(w: nat, outcome: Outcome) | Deliver(w: nat)
    | Interrupt                                           // the signal handler

  /** Everything the main thread ever puts on the input queue, in order. */
  function Script(c: Config): seq<Token> {
    seq(|c.jobs|, i requires 0 <= i < |c.jobs| => Work(i)) + seq(c.processors, _ => Break)
  }

  function Init(c: Config): State {
    State(Dispatching(0), [], seq(c.processors, _ => Idle), [], [], false)
  }

  predicate Final(c: Config, s: State) {
    s.phase == Joining(c.processors)
  }

  predicate Enabled(c: Config, s: State, step: Step)
    requires c.Valid()
  {
    match step
    case Put => s.phase.Dispatching? && s.phase.sent < |Script(c)|
    case Collect => s.phase.Collecting? && |s.collected| < |c.jobs| && s.output != []
    case StopCollecting => s.phase.Collecting? && |s.collected| == |c.jobs|
    case Join => s.phase.Joining? && s.phase.joined < |s.workers| && s.workers[s.phase.joined].Exited?
    case Get(w) => w < |s.workers| && s.workers[w].Idle? && s.input != []
    case Check(w) => w < |s.workers| && s.workers[w].Checking? &&
      (s.workers[w].token.Work? ==> s.workers[w].token.id < |c.jobs|)
    case Finish(w, outcome) => w < |s.workers| && s.workers[w].Running? && s.workers[w].id < |c.jobs| &&
      (outcome == c.outcomes[s.workers[w].id] || s.threadExit)
    case Deliver(w) => w < |s.workers| && s.workers[w].Delivering?
    case Interrupt => !s.threadExit
  }

  /** What a worker does with the token it has taken. */
  function Decide(c: Config, threadExit: bool, token: Token): Worker
    requires token.Work? ==> token.id < |c.jobs|
  {
    match token
    case Break => Exited
    case Work(id) =>
      if threadExit then Delivering(Report(id, c.jobs[id], true, NOT_RUN))
      else if c.jobs[id].isSkip then Delivering(Report(id, c.jobs[id], false, NOT_RUN))
      else Running(id)
  }

  function Apply(c: Config, s: State, step: Step): State
    requires c.Valid() && Enabled(c, s, step)
  {
    match step
    case Put =>
      var sent := s.phase.sent + 1;
      s.(input := s.input + [Script(c)[s.phase.sent]],
         phase := if sent == |Script(c)| then Collecting else Dispatching(sent))
    case Collect => s.(output := s.output[1..], collected := s.collected + [s.output[0]])
    case StopCollecting => s.(phase := Joining(0))
    case Join => s.(phase := Joining(s.phase.joined + 1))
    case Get(w) => s.(input := s.input[1..], workers := s.workers[w := Checking(s.input[0])])
    case Check(w) => s.(workers := s.workers[w := Decide(c, s.threadExit, s.workers[w].token)])
    case Finish(w, outcome) =>
      s.(workers := s.workers[w := Delivering(Report(s.workers[w].id, c.jobs[s.workers[w].id], false, outcome))])
    case Deliver(w) => s.(workers := s.workers[w := Idle], output := s.output + [s.workers[w].report])
    case Interrupt => s.(threadExit := true)
  }

  /** `steps` can be taken one after the other from `s`. */
  predicate IsRun(c: Config, s: State, steps: seq<Step>)
    requires c.Valid()
    decreases |steps|
  {
    steps == [] || (Enabled(c, s, steps[0]) && IsRun(c, Apply(c, s, steps[0]), steps[1..]))
  }

  function After(c: Config, s: State, steps: seq<Step>): State
    requires c.Valid() && IsRun(c, s, steps)
    decreases |steps|
  {
    if steps == [] then s else After(c, Apply(c, s, steps[0]), steps[1..])
  }

  // ----- Where the tokens are

  function Carried(w: Worker): Option<Token> {
    match w
    case Idle => None
    case Checking(token) => Some(token)
    case Running(id) => Some(Work(id))
    case Delivering(report) => Some(Work(report.id))
    case Exited => Some(Break)
  }

  function Holds(w: Worker, t: Token): nat {
    if Carried(w) == Some(t) then 1 else 0
  }

  /** How many workers hold token `t`. */
  function Held(ws: seq<Worker>, t: Token): nat {
    if ws == [] then 0 else Held(ws[..|ws| - 1], t) + Holds(ws[|ws| - 1], t)
  }

  function Tokens(rs: seq<Report>): seq<Token> {
    seq(|rs|, i requires 0 <= i < |rs| => Work(rs[i].id))
  }

  /** How often token `t` occurs in the queues, the workers and the collected reports together. */
  function Occurrences(s: State, t: Token): nat {
    multiset(s.input)[t] + Held(s.workers, t) + multiset(Tokens(s.output))[t] + multiset(Tokens(s.collected))[t]
  }

  function Sent(c: Config, s: State): nat {
    if s.phase.Dispatching? then s.phase.sent else |Script(c)|
  }

  // ----- The invariant

  predicate Retired(w: Worker) {
    w.Exited? || w == Checking(Break)
  }

  /** Every token put on the queue is in exactly one place: queued, held, reported or collected. */
  ghost predicate Conserved(c: Config, s: State) {
    && Sent(c, s) <= |Script(c)|
    && forall t :: Occurrences(s, t) == multiset(Script(c)[..Sent(c, s)])[t]
  }

  predicate BreaksLast(q: seq<Token>) {
    forall i, j :: 0 <= i < j < |q| && q[i].Break? ==> q[j].Break?
  }

  /** Once a worker has been told to stop, no job is left in the queue. */
  predicate Drained(s: State) {
    (exists w :: 0 <= w < |s.workers| && Retired(s.workers[w])) ==>
      forall i :: 0 <= i < |s.input| ==> s.input[i].Break?
  }

  /** A report is what an undisturbed run would say, unless the interrupt flag is up. */
  predicate Honest(c: Config, threadExit: bool, r: Report)
    requires c.Valid()
  {
    r.id < |c.jobs| && r.job == c.jobs[r.id] && (r == c.Expected(r.id) || threadExit)
  }

  predicate HonestWorker(c: Config, threadExit: bool, w: Worker)
    requires c.Valid()
  {
    && (w.Delivering? ==> Honest(c, threadExit, w.report))
    && (w.Running? ==> w.id < |c.jobs| && !c.jobs[w.id].isSkip)
    && (w.Checking? && w.token.Work? ==> w.token.id < |c.jobs|)
  }

  predicate AllHonest(c: Config, s: State)
    requires c.Valid()
  {
    && (forall i :: 0 <= i < |s.workers| ==> HonestWorker(c, s.threadExit, s.workers[i]))
    && (forall i :: 0 <= i < |s.output| ==> Honest(c, s.threadExit, s.output[i]))
    && (forall i :: 0 <= i < |s.collected| ==> Honest(c, s.threadExit, s.collected[i]))
    && (forall i :: 0 <= i < |s.input| && s.input[i].Work? ==> s.input[i].id < |c.jobs|)
  }

  predicate Progressed(c: Config, s: State) {
    && |s.workers| == c.processors
    && (s.phase.Dispatching? ==> s.phase.sent < |Script(c)|)
    && (!s.phase.Joining? ==> |s.collected| <= |c.jobs|)
    && (s.phase.Joining? ==>
          && |s.collected| == |c.jobs|
          && s.phase.joined <= c.processors
          && forall i :: 0 <= i < s.phase.joined ==> s.workers[i].Exited?)
  }

  ghost predicate Inv(c: Config, s: State)
    requires c.Valid()
  {
    Progressed(c, s) && Conserved(c, s) && BreaksLast(s.input) && Drained(s) && AllHonest(c, s)
  }

  // ----- The invariant holds initially and every step keeps it

  lemma {:induction false} HeldUpdate(ws: seq<Worker>, i: nat, x: Worker, t: Token)
    requires i < |ws|
    ensures Held(ws[i := x], t) == Held(ws, t) - Holds(ws[i], t) + Holds(x, t)
  {
    var k := |ws| - 1;
    if i == k {
      assert ws[i := x][..k] == ws[..k];
    } else {
      assert ws[i := x][..k] == ws[..k][i := x];
      HeldUpdate(ws[..k], i, x, t);
    }
  }

  lemma {:induction false} HeldIdle(n: nat, t: Token)
    ensures Held(seq(n, _ => Idle), t) == 0
  {
    if n > 0 {
      assert seq(n, _ => Idle)[..n - 1] == seq(n - 1, _ => Idle);
      HeldIdle(n - 1, t);
    }
  }

  lemma InitInv(c: Config)
    requires c.Valid()
    ensures Inv(c, Init(c))
  {
    forall t
      ensures Occurrences(Init(c), t) == 0
    {
      HeldIdle(c.processors, t);
    }
  }

  lemma CountFront<T>(s: seq<T>, t: T)
    requires s != []
    ensures multiset(s)[t] == multiset(s[1..])[t] + (if s[0] == t then 1 else 0)
  {
    assert s == [s[0]] + s[1..];
  }

  lemma CountAppend(rs: seq<Report>, r: Report, t: Token)
    ensures multiset(Tokens(rs + [r]))[t] == multiset(Tokens(rs))[t] + (if Work(r.id) == t then 1 else 0)
  {
    assert Tokens(rs + [r]) == Tokens(rs) + [Work(r.id)];
  }

  lemma GetOccurrences(s: State, w: nat, t: Token)
    requires w < |s.workers| && s.workers[w].Idle? && s.input != []
    ensures Occurrences(s.(input := s.input[1..], workers := s.workers[w := Checking(s.input[0])]), t) ==
            Occurrences(s, t)
  {
    HeldUpdate(s.workers, w, Checking(s.input[0]), t);
    CountFront(s.input, t);
  }

  lemma DeliverOccurrences(s: State, w: nat, t: Token)
    requires w < |s.workers| && s.workers[w].Delivering?
    ensures Occurrences(s.(workers := s.workers[w := Idle], output := s.output + [s.workers[w].report]), t) ==
            Occurrences(s, t)
  {
    HeldUpdate(s.workers, w, Idle, t);
    CountAppend(s.output, s.workers[w].report, t);
  }

  lemma KeepOccurrences(s: State, w: nat, x: Worker, t: Token)
    requires w < |s.workers| && Carried(x) == Carried(s.workers[w])
    ensures Occurrences(s.(workers := s.workers[w := x]), t) == Occurrences(s, t)
  {
    HeldUpdate(s.workers, w, x, t);
  }

  lemma {:induction false} StepOccurrences(c: Config, s: State, step: Step, t: Token)
    requires c.Valid() && Enabled(c, s, step)
    ensures Occurrences(Apply(c, s, step), t) ==
            Occurrences(s, t) + (if step.Put? && Script(c)[s.phase.sent] == t then 1 else 0)
  {
    if step.Collect? {
      CountFront(Tokens(s.output), t);
      assert Tokens(s.output)[1..] == Tokens(s.output[1..]);
      CountAppend(s.collected, s.output[0], t);
    } else if step.Get? {
      GetOccurrences(s, step.w, t);
    } else if step.Deliver? {
      DeliverOccurrences(s, step.w, t);
    } else if step.Check? || step.Finish? {
      KeepOccurrences(s, step.w, Apply(c, s, step).workers[step.w], t);
    }
  }

  lemma StepConserved(c: Config, s: State, step: Step)
    requires c.Valid() && Conserved(c, s) && Enabled(c, s, step)
    ensures Conserved(c, Apply(c, s, step))
  {
    var s' := Apply(c, s, step);
    assert Script(c)[..|Script(c)|] == Script(c);
    if step.Put? {
      assert Script(c)[..s.phase.sent + 1] == Script(c)[..s.phase.sent] + [Script(c)[s.phase.sent]];
    }
    forall t
      ensures Occurrences(s', t) == multiset(Script(c)[..Sent(c, s')])[t]
    {
      StepOccurrences(c, s, step, t);
    }
  }

  lemma {:induction false} HoldsIsHeld(ws: seq<Worker>, w: nat, t: Token)
    requires w < |ws|
    ensures Holds(ws[w], t) <= Held(ws, t)
  {
    if w < |ws| - 1 {
      HoldsIsHeld(ws[..|ws| - 1], w, t);
    }
  }

  /** While jobs are still being dispatched no break token exists anywhere. */
  lemma NoBreakYet(c: Config, s: State)
    requires c.Valid() && Inv(c, s) && Sent(c, s) <= |c.jobs|
    ensures Break !in s.input
    ensures forall w :: 0 <= w < |s.workers| ==> !Retired(s.workers[w])
  {
    assert Break !in Script(c)[..Sent(c, s)];
    assert Occurrences(s, Break) == 0;
    forall w | 0 <= w < |s.workers|
      ensures !Retired(s.workers[w])
    {
      HoldsIsHeld(s.workers, w, Break);
    }
  }

  lemma NobodyRetires(s: State, w: nat, x: Worker)
    requires w < |s.workers| && Drained(s) && (Retired(x) ==> Retired(s.workers[w]))
    ensures Drained(s.(workers := s.workers[w := x]))
  {
    assert forall v :: 0 <= v < |s.workers| && v != w ==> s.workers[w := x][v] == s.workers[v];
  }

  lemma {:induction false} StepOrdered(c: Config, s: State, step: Step)
    requires c.Valid() && Inv(c, s) && Enabled(c, s, step)
    ensures BreaksLast(Apply(c, s, step).input) && Drained(Apply(c, s, step))
  {
    var t := Apply(c, s, step);
    match step
    case Put =>
      if s.phase.sent < |c.jobs| {
        NoBreakYet(c, s);
      }
    case Get(w) =>
      assert forall v :: 0 <= v < |t.workers| && v != w ==> t.workers[v] == s.workers[v];
      if s.input[0].Work? {
        assert !Retired(t.workers[w]);
      }
    case Check(w) =>
      NobodyRetires(s, w, t.workers[w]);
    case Finish(w, _) =>
      NobodyRetires(s, w, t.workers[w]);
    case Deliver(w) =>
      NobodyRetires(s, w, t.workers[w]);
    case Collect =>
    case StopCollecting =>
    case Join =>
    case Interrupt =>
  }

  lemma StepProgressed(c: Config, s: State, step: Step)
    requires c.Valid() && Progressed(c, s) && Enabled(c, s, step)
    ensures Progressed(c, Apply(c, s, step))
  {
  }

  /** A worker that moves on stays honest: what it holds is a job of the run, and what it reports is
      what the job returns unless the interrupt flag is up. */
  lemma WorkerStaysHonest(c: Config, s: State, step: Step)
    requires c.Valid() && AllHonest(c, s) && Enabled(c, s, step)
    requires step.Get? || step.Check? || step.Finish? || step.Deliver?
    ensures HonestWorker(c, s.threadExit, Apply(c, s, step).workers[step.w])
  {
    assert HonestWorker(c, s.threadExit, s.workers[step.w]);
  }

  lemma {:induction false} StepHonest(c: Config, s: State, step: Step)
    requires c.Valid() && AllHonest(c, s) && Enabled(c, s, step)
    ensures AllHonest(c, Apply(c, s, step))
  {
    if step.Get? || step.Check? || step.Finish? || step.Deliver? {
      WorkerStaysHonest(c, s, step);
    }
  }

  lemma StepInv(c: Config, s: State, step: Step)
    requires c.Valid() && Inv(c, s) && Enabled(c, s, step)
    ensures Inv(c, Apply(c, s, step))
  {
    StepConserved(c, s, step);
    StepOrdered(c, s, step);
    StepProgressed(c, s, step);
    StepHonest(c, s, step);
  }

  /** Every state of every run satisfies the invariant. */
  lemma {:induction false} RunInv(c: Config, s: State, steps: seq<Step>)
    requires c.Valid() && Inv(c, s) && IsRun(c, s, steps)
    ensures Inv(c, After(c, s, steps))
    decreases |steps|
  {
    if steps != [] {
      StepInv(c, s, steps[0]);
      RunInv(c, Apply(c, s, steps[0]), steps[1..]);
    }
  }

  // ----- Counting tokens

  function Works(n: nat): seq<Token> {
    seq(n, i requires 0 <= i < n => Work(i))
  }

  lemma {:induction false} CountWorks(n: nat, t: Token)
    ensures multiset(Works(n))[t] == if t.Work? && t.id < n then 1 else 0
  {
    if n > 0 {
      assert Works(n) == Works(n - 1) + [Work(n - 1)];
      CountWorks(n - 1, t);
    }
  }

  lemma {:induction false} CountBreaks(n: nat, t: Token)
    ensures multiset(seq(n, _ => Break))[t] == if t.Break? then n else 0
  {
    if n > 0 {
      assert seq(n, _ => Break) == seq(n - 1, _ => Break) + [Break];
      CountBreaks(n - 1, t);
    }
  }

  lemma CountScript(c: Config, t: Token)
    ensures multiset(Script(c))[t] ==
      match t { case Break => c.processors case Work(id) => if id < |c.jobs| then 1 else 0 }
  {
    assert Script(c) == Works(|c.jobs|) + seq(c.processors, _ => Break);
    CountWorks(|c.jobs|, t);
    CountBreaks(c.processors, t);
  }

  lemma {:induction false} HeldBounds(ws: seq<Worker>, t: Token)
    ensures Held(ws, t) <= |ws|
    ensures Held(ws, t) == |ws| <==> forall w :: 0 <= w < |ws| ==> Holds(ws[w], t) == 1
    ensures Held(ws, t) == 0 <==> forall w :: 0 <= w < |ws| ==> Holds(ws[w], t) == 0
  {
    if ws != [] {
      HeldBounds(ws[..|ws| - 1], t);
    }
  }

  lemma HeadOccurs<T>(s: seq<T>)
    ensures s == [] || multiset(s)[s[0]] > 0
  {
  }

  lemma SubMultiset<T>(a: multiset<T>, b: multiset<T>)
    requires a <= b
    ensures |a| <= |b|
    ensures |a| == |b| ==> a == b
  {
    assert b == a + (b - a);
  }

  /** After dispatch, the occurrences of every token are those of the whole script. */
  lemma AllSent(c: Config, s: State, t: Token)
    requires c.Valid() && Inv(c, s) && !s.phase.Dispatching?
    ensures Occurrences(s, t) == match t { case Break => c.processors case Work(id) => if id < |c.jobs| then 1 else 0 }
  {
    assert Script(c)[..|Script(c)|] == Script(c);
    CountScript(c, t);
  }

  // ----- Consequences of the invariant

  /** A job is in at most one place: once reported, it is in no queue and with no worker again. */
  lemma {:induction false} EachJobInOnePlace(c: Config, s: State, id: nat)
    requires c.Valid() && Inv(c, s)
    ensures Occurrences(s, Work(id)) <= 1
    ensures Work(id) in Tokens(s.output) || Work(id) in Tokens(s.collected) ==>
      Work(id) !in s.input && Held(s.workers, Work(id)) == 0
  {
    var sent := Sent(c, s);
    assert Script(c) == Script(c)[..sent] + Script(c)[sent..];
    CountScript(c, Work(id));
  }

  function Live(ws: seq<Worker>): nat {
    if ws == [] then 0 else Live(ws[..|ws| - 1]) + (if Retired(ws[|ws| - 1]) then 0 else 1)
  }

  lemma {:induction false} LiveOrHoldingBreak(ws: seq<Worker>)
    ensures Live(ws) + Held(ws, Break) == |ws|
  {
    if ws != [] {
      LiveOrHoldingBreak(ws[..|ws| - 1]);
    }
  }

  lemma NoBreakReported(rs: seq<Report>)
    ensures multiset(Tokens(rs))[Break] == 0
  {
    assert Break !in Tokens(rs);
  }

  /** After dispatch the input queue holds exactly one break per worker that has not taken one. */
  lemma BreaksMatchLiveWorkers(c: Config, s: State)
    requires c.Valid() && Inv(c, s) && !s.phase.Dispatching?
    ensures multiset(s.input)[Break] == Live(s.workers)
  {
    AllSent(c, s, Break);
    LiveOrHoldingBreak(s.workers);
    NoBreakReported(s.output);
    NoBreakReported(s.collected);
  }

  /** When the main thread has joined every worker, both queues are empty and every job has been
      collected exactly once. */
  lemma {:induction false} FinalState(c: Config, s: State)
    requires c.Valid() && Inv(c, s) && Final(c, s)
    ensures s.input == [] && s.output == []
    ensures forall w :: 0 <= w < |s.workers| ==> s.workers[w].Exited?
    ensures multiset(Tokens(s.collected)) == multiset(Works(|c.jobs|))
  {
    HeldBounds(s.workers, Break);
    var a, b := multiset(Tokens(s.collected)), multiset(Works(|c.jobs|));
    forall t
      ensures a[t] <= b[t] && multiset(s.input)[t] <= b[t] - a[t] && multiset(Tokens(s.output))[t] <= b[t] - a[t]
    {
      AllSent(c, s, t);
      CountWorks(|c.jobs|, t);
      NoBreakReported(s.collected);
    }
    SubMultiset(a, b);
    HeadOccurs(s.input);
    HeadOccurs(Tokens(s.output));
  }

  // ----- No deadlock

  /** A worker that is neither waiting nor gone can always take its next step. */
  function WorkerStep(c: Config, s: State, w: nat): (step: Step)
    requires c.Valid() && Inv(c, s) && w < |s.workers| && !s.workers[w].Idle? && !s.workers[w].Exited?
    ensures Enabled(c, s, step) && !step.Interrupt?
  {
    assert HonestWorker(c, s.threadExit, s.workers[w]);
    match s.workers[w]
    case Checking(_) => Check(w)
    case Running(id) => Finish(w, c.outcomes[id])
    case Delivering(_) => Deliver(w)
  }

  /** If reports are missing, none is queued and every worker waits or is gone, then work is queued
      and nobody is gone. */
  lemma {:induction false} WorkIsQueued(c: Config, s: State)
    requires c.Valid() && Inv(c, s) && s.phase.Collecting?
    requires |s.collected| < |c.jobs| && s.output == []
    requires forall w :: 0 <= w < |s.workers| ==> s.workers[w].Idle? || s.workers[w].Exited?
    ensures s.input != [] && s.workers[0].Idle?
  {
    var a, b := multiset(Works(|c.jobs|)), multiset(Tokens(s.collected));
    assert |a| == |c.jobs| && |b| == |s.collected|;
    if a <= b {
      SubMultiset(a, b);
    }
    var t :| t in a && a[t] > b[t];
    CountWorks(|c.jobs|, t);
    AllSent(c, s, t);
    HeldBounds(s.workers, t);
    assert t in s.input;
    var i :| 0 <= i < |s.input| && s.input[i] == t;
    assert !Retired(s.workers[0]);
  }

  /** Deadlock freedom: in every reachable state that is not final some step other than an
      interrupt can be taken. */
  lemma NoDeadlock(c: Config, s: State) returns (step: Step)
    requires c.Valid() && Inv(c, s) && !Final(c, s)
    ensures Enabled(c, s, step) && !step.Interrupt?
  {
    match s.phase
    case Dispatching(_) => step := Put;
    case Collecting =>
      if |s.collected| == |c.jobs| {
        step := StopCollecting;
      } else if s.output != [] {
        step := Collect;
      } else if w :| 0 <= w < |s.workers| && !s.workers[w].Idle? && !s.workers[w].Exited? {
        step := WorkerStep(c, s, w);
      } else {
        WorkIsQueued(c, s);
        step := Get(0);
      }
    case Joining(k) =>
      if s.workers[k].Exited? {
        step := Join;
      } else if s.workers[k].Idle? {
        BreaksMatchLiveWorkers(c, s);
        LiveOrHoldingBreak(s.workers);
        HeldBounds(s.workers, Break);
        assert Holds(s.workers[k], Break) == 0;
        step := Get(k);
      } else {
        step := WorkerStep(c, s, k);
      }
  }

  // ----- Termination

  function Weight(w: Worker): nat {
    match w
    case Idle => 0
    case Checking(_) => 4
    case Running(_) => 3
    case Delivering(_) => 2
    case Exited => 0
  }

  function Load(ws: seq<Worker>): nat {
    if ws == [] then 0 else Load(ws[..|ws| - 1]) + Weight(ws[|ws| - 1])
  }

  lemma {:induction false} LoadUpdate(ws: seq<Worker>, i: nat, x: Worker)
    requires i < |ws|
    ensures Load(ws[i := x]) == Load(ws) - Weight(ws[i]) + Weight(x)
  {
    var k := |ws| - 1;
    if i == k {
      assert ws[i := x][..k] == ws[..k];
    } else {
      assert ws[i := x][..k] == ws[..k][i := x];
      LoadUpdate(ws[..k], i, x);
    }
  }

  lemma {:induction false} LoadIdle(n: nat)
    ensures Load(seq(n, _ => Idle)) == 0
  {
    if n > 0 {
      assert seq(n, _ => Idle)[..n - 1] == seq(n - 1, _ => Idle);
      LoadIdle(n - 1);
    }
  }

  /** Steps still to come, counted as if every token had to travel its longest way. */
  function Measure(c: Config, s: State): int {
    6 * (|Script(c)| - Sent(c, s)) + 5 * |s.input| + Load(s.workers) + |s.output|
    + (if s.phase.Joining? then c.processors - s.phase.joined else c.processors + 1)
    + (if s.threadExit then 0 else 1)
  }

  lemma {:induction false} StepDecreases(c: Config, s: State, step: Step)
    requires c.Valid() && Inv(c, s) && Enabled(c, s, step)
    ensures 0 <= Measure(c, Apply(c, s, step)) < Measure(c, s)
  {
    StepInv(c, s, step);
    if step.Get? || step.Check? || step.Finish? || step.Deliver? {
      LoadUpdate(s.workers, step.w, Apply(c, s, step).workers[step.w]);
    }
  }

  lemma {:induction false} RunBound(c: Config, s: State, steps: seq<Step>)
    requires c.Valid() && Inv(c, s) && IsRun(c, s, steps)
    ensures |steps| <= Measure(c, s) - Measure(c, After(c, s, steps))
    decreases |steps|
  {
    if steps != [] {
      StepInv(c, s, steps[0]);
      StepDecreases(c, s, steps[0]);
      RunBound(c, Apply(c, s, steps[0]), steps[1..]);
    }
  }

  /** Termination: no run, whatever the interleaving and the moment of an interrupt, is longer than
      six steps per job and seven per worker, plus two. */
  lemma RunsTerminate(c: Config, steps: seq<Step>)
    requires c.Valid() && IsRun(c, Init(c), steps)
    ensures |steps| <= 6 * |c.jobs| + 7 * c.processors + 2
  {
    InitInv(c);
    RunBound(c, Init(c), steps);
    RunInv(c, Init(c), steps);
    LoadIdle(c.processors);
  }

  /** Every reachable state can be carried on to the end without another interrupt. */
  lemma CanFinish(c: Config, s: State) returns (steps: seq<Step>)
    requires c.Valid() && Inv(c, s)
    ensures IsRun(c, s, steps) && Final(c, After(c, s, steps))
    ensures Interrupt !in steps
    decreases Measure(c, s)
  {
    if Final(c, s) {
      steps := [];
    } else {
      var step := NoDeadlock(c, s);
      StepInv(c, s, step);
      StepDecreases(c, s, step);
      var rest := CanFinish(c, Apply(c, s, step));
      steps := [step] + rest;
      assert steps[1..] == rest;
    }
  }

  /** A run that can be extended by nothing but an interrupt has ended: all reports are in and all
      workers are gone. */
  lemma StuckMeansDone(c: Config, steps: seq<Step>)
    requires c.Valid() && IsRun(c, Init(c), steps)
    requires forall step: Step :: Enabled(c, After(c, Init(c), steps), step) ==> step.Interrupt?
    ensures Final(c, After(c, Init(c), steps))
  {
    InitInv(c);
    RunInv(c, Init(c), steps);
    if !Final(c, After(c, Init(c), steps)) {
      var step := NoDeadlock(c, After(c, Init(c), steps));
    }
  }
}
