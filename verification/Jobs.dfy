/** The work items of the test runner and what comes back from running them. */
module Jobs {

  datatype Kind = Suite | Example | PyExample

  /** The part of a job that is fixed when it is queued. */
  datatype Job = Job(name: string, kind: Kind, isSkip: bool, skipReason: string)

  /** What running a job yields: the return code of its process and, for a suite, whether the
      results file it wrote parses and says PASS or SKIP. */
  datatype Outcome = Outcome(code: int, xmlPasses: bool)

  /** The outcome fields of a job that was never run: the return code starts as False, which is 0. */
  const NOT_RUN := Outcome(0, false)

  /** A job as a worker puts it on the output queue, with its position in the list of queued jobs.
      `isBreak` says that it was handed back unprocessed after an interrupt. */
  datatype Report = Report(id: nat, job: Job, isBreak: bool, outcome: Outcome)

  /** One invocation: the jobs, what each returns when it is left to run, the number of workers. */
  datatype Config = Config(jobs: seq<Job>, outcomes: seq<Outcome>, processors: nat) {
    predicate Valid() {
      |outcomes| == |jobs| && processors >= 1
    }

    /** The report of job `id` in an undisturbed run. */
    function Expected(id: nat): Report
      requires Valid() && id < |jobs|
    {
      Report(id, jobs[id], false, if jobs[id].isSkip then NOT_RUN else outcomes[id])
    }

    /** The reports of a run that takes the jobs one at a time, in order. */
    function Sequential(): seq<Report>
      requires Valid()
    {
      seq(|jobs|, i requires 0 <= i < |jobs| => Expected(i))
    }
  }
}
