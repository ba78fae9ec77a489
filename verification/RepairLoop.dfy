/**
 * The bounded repair loop: code, validate, review and test, and go round again with the error while
 * attempts remain.
 *
 * The coder, the gate, the reviewer and the sandbox are oracles, indexed by the attempt; publishing and
 * packaging do not fail. Events that do not end the task are all `Progress`, so the order in which the
 * reviewer and the tester, which run in parallel, publish theirs makes no difference.
 */
module RepairLoop {
  import opened Sequences
  import opened Text
  import DagScheduler

  datatype Emitted = Progress | TaskDone | TaskFailed(reason: string)

  function Progresses(n: nat): (r: seq<Emitted>)
    ensures |r| == n && forall e :: e in r ==> e == Progress
  {
    seq(n, _ => Progress)
  }

  // ---------------------------------------------------------------------------
  // The tester
  // ---------------------------------------------------------------------------

  datatype Sandbox = Ran(ok: bool, status: string, reason: Option<string>) | DispatchFailed(error: string)

  datatype TesterResult = TesterResult(success: bool, attempts: int, retries: int, status: string,
                                       reason: Option<string>)

  /** What the sandbox gives on each attempt, from 1. */
  type Sandboxes = int -> Sandbox

  predicate Passes(s: Sandbox) {
    s.Ran? && s.ok
  }

  function ResultOf(s: Sandbox, attempt: int): TesterResult {
    match s
    case Ran(ok, status, reason) => TesterResult(ok, attempt, attempt - 1, status, reason)
    case DispatchFailed(error) => TesterResult(false, attempt, attempt - 1, "sandbox_request_failed", Some(error))
  }

  /** The attempt that settles a test: the first that passes, or else the last. */
  ghost predicate Settles(sandbox: Sandboxes, total: int, k: int) {
    && 1 <= k <= total
    && (forall j :: 1 <= j < k ==> !Passes(sandbox(j)))
    && (k < total ==> Passes(sandbox(k)))
  }

  function LastAttempt(sandbox: Sandboxes, k: int, total: int): int
    requires k <= total
    decreases total - k
  {
    if k == total || Passes(sandbox(k)) then k else LastAttempt(sandbox, k + 1, total)
  }

  lemma {:induction false} LastAttemptSettles(sandbox: Sandboxes, k: int, total: int)
    requires 1 <= k <= total && forall j :: 1 <= j < k ==> !Passes(sandbox(j))
    ensures Settles(sandbox, total, LastAttempt(sandbox, k, total))
    decreases total - k
  {
    if k < total && !Passes(sandbox(k)) {
      LastAttemptSettles(sandbox, k + 1, total);
    }
  }

  function Tested(sandbox: Sandboxes, maxRetries: nat): TesterResult {
    var k := LastAttempt(sandbox, 1, maxRetries + 1);
    ResultOf(sandbox(k), k)
  }

  /** The test succeeds if and only if one of the allowed attempts passes; no attempt follows that one. */
  lemma TestSucceedsIff(sandbox: Sandboxes, maxRetries: nat)
    ensures var r := Tested(sandbox, maxRetries);
            && (r.success <==> exists k :: 1 <= k <= maxRetries + 1 && Passes(sandbox(k)))
            && 1 <= r.attempts <= maxRetries + 1 && r.retries == r.attempts - 1
            && (forall j :: 1 <= j < r.attempts ==> !Passes(sandbox(j)))
            && (!r.success ==> r.attempts == maxRetries + 1)
  {
    LastAttemptSettles(sandbox, 1, maxRetries + 1);
  }

  class Journal {
    var log: seq<Emitted>

    constructor ()
      ensures log == []
    {
      log := [];
    }

    method Publish(e: Emitted)
      modifies this
      ensures log == old(log) + [e]
    {
      log := log + [e];
    }

    method PublishProgress(n: nat)
      modifies this
      ensures log == old(log) + Progresses(n)
    {
      log := log + Progresses(n);
    }
  }

  class TesterAgent {
    const maxRetries: nat

    constructor (maxRetries: int)
      ensures this.maxRetries <= 3
      ensures 0 <= maxRetries <= 3 ==> this.maxRetries == maxRetries
      ensures maxRetries < 0 ==> this.maxRetries == 0
      ensures maxRetries > 3 ==> this.maxRetries == 3
    {
      var least := if maxRetries < 3 then maxRetries else 3;
      this.maxRetries := if least > 0 then least else 0;
    }

    /** Every iteration that is the last one returns, so the loop is never left otherwise. */
    method Execute(sandbox: Sandboxes, journal: Journal) returns (r: TesterResult)
      modifies journal
      ensures r == Tested(sandbox, maxRetries)
      ensures r.attempts >= 1 && journal.log == old(journal.log) + Progresses(2 * r.attempts)
    {
      var totalAttempts := maxRetries + 1;
      var attempt := 1;
      while true
        invariant 1 <= attempt <= totalAttempts
        invariant LastAttempt(sandbox, 1, totalAttempts) == LastAttempt(sandbox, attempt, totalAttempts)
        invariant journal.log == old(journal.log) + Progresses(2 * (attempt - 1))
        decreases totalAttempts - attempt
      {
        journal.Publish(Progress);
        var result := sandbox(attempt);
        journal.Publish(Progress);
        assert journal.log == old(journal.log) + Progresses(2 * attempt);
        match result {
          case DispatchFailed(error) =>
            if attempt > maxRetries {
              return TesterResult(false, attempt, attempt - 1, "sandbox_request_failed", Some(error));
            }
          case Ran(ok, status, reason) =>
            if ok {
              return TesterResult(true, attempt, attempt - 1, status, reason);
            }
            if attempt > maxRetries {
              return TesterResult(false, attempt, attempt - 1, status, reason);
            }
        }
        attempt := attempt + 1;
      }
    }
  }

  // ---------------------------------------------------------------------------
  // One attempt of the repair loop
  // ---------------------------------------------------------------------------

  datatype Coder = Coded | CoderFails(reason: string)

  datatype Reviewed = Approved | Rejected | NotAReview | ReviewRaises

  /**
   * The oracles of a run, by attempt from 0: the coder also sees the last error, "" if there is none;
   * the gate gives the summary of a failed validation; the counts are of the progress events.
   */
  datatype Crew = Crew(
    coder: (int, string) -> Coder,
    gate: int -> Option<string>,
    review: int -> Reviewed,
    commandRaises: int -> bool,
    sandbox: int -> Sandboxes,
    coderProgress: int -> nat,
    stageProgress: int -> nat,
    packagingProgress: int -> nat)

  datatype Ending =
    | CoderFailed
    | FixLoopExhausted(lastError: string)
    | ParallelPipelineError
    | ParallelResultInvalid
    | ReviewRejected
    | CodedReviewedTested

  datatype Verdict = Stop(ending: Ending) | Repair(error: string)

  /** `str(test.reason or test.status or "test_failed").strip()` */
  function TestError(r: TesterResult): string {
    Strip(if r.reason.Some? && r.reason.value != "" then r.reason.value
          else if r.status != "" then r.status
          else "test_failed")
  }

  predicate StageRaises(crew: Crew, i: int) {
    crew.review(i) == ReviewRaises || crew.commandRaises(i)
  }

  predicate ReachesStage(crew: Crew, i: int, lastError: string) {
    crew.coder(i, lastError).Coded? && crew.gate(i).None?
  }

  function AfterStage(review: Reviewed, test: TesterResult): Verdict {
    if review == NotAReview then Stop(ParallelResultInvalid)
    else if review != Approved then Stop(ReviewRejected)
    else if !test.success then Repair(TestError(test))
    else Stop(CodedReviewedTested)
  }

  /** What attempt `i` comes to, regardless of how many attempts are left. */
  function Judge(crew: Crew, i: int, lastError: string, maxRetries: nat): Verdict {
    if crew.coder(i, lastError).CoderFails? then Stop(CoderFailed)
    else if crew.gate(i).Some? then Repair(crew.gate(i).value)
    else if StageRaises(crew, i) then Stop(ParallelPipelineError)
    else AfterStage(crew.review(i), Tested(crew.sandbox(i), maxRetries))
  }

  /** The sandbox runs of attempt `i`; the tester runs even if the reviewer raises. */
  function SandboxRuns(crew: Crew, i: int, lastError: string, maxRetries: nat): int {
    if !ReachesStage(crew, i, lastError) || crew.commandRaises(i) then 0
    else Tested(crew.sandbox(i), maxRetries).attempts
  }

  function Reason(ending: Ending): string {
    match ending
    case CoderFailed => "coder_failed"
    case FixLoopExhausted(_) => "fix_loop_exhausted"
    case ParallelPipelineError => "parallel_pipeline_error"
    case ParallelResultInvalid => "parallel_result_invalid"
    case ReviewRejected => "review_rejected"
    case CodedReviewedTested => "coded_reviewed_tested"
  }

  // ---------------------------------------------------------------------------
  // One attempt, read off the oracles
  // ---------------------------------------------------------------------------

  /** One of the sandbox attempts that a test of attempt `i` may make passes. */
  ghost predicate TestPasses(crew: Crew, i: int, maxRetries: nat) {
    exists k :: 1 <= k <= maxRetries + 1 && crew.sandbox(i)(k).Ran? && crew.sandbox(i)(k).ok
  }

  /** What a sandbox attempt that did not pass is reported as. */
  ghost predicate ReportedAs(s: Sandbox, error: string) {
    match s
    case DispatchFailed(message) => error == if message != "" then Strip(message) else "sandbox_request_failed"
    case Ran(_, status, Some(reason)) =>
      error == if reason != "" then Strip(reason) else if status != "" then Strip(status) else "test_failed"
    case Ran(_, status, None) => error == if status != "" then Strip(status) else "test_failed"
  }

  /**
   * The coder writes, and either the gate fails with summary `error`, or the reviewer approves and no test
   * attempt passes, the last of which is reported as `error`.
   */
  ghost predicate NeedsRepair(crew: Crew, i: int, lastError: string, maxRetries: nat, error: string) {
    && crew.coder(i, lastError) == Coded
    && match crew.gate(i)
       case Some(summary) => error == summary
       case None =>
         && crew.review(i) == Approved && !crew.commandRaises(i)
         && !TestPasses(crew, i, maxRetries) && ReportedAs(crew.sandbox(i)(maxRetries + 1), error)
  }

  /** The coder writes, the gate is open, the reviewer approves and one test attempt passes. */
  ghost predicate Succeeds(crew: Crew, i: int, lastError: string, maxRetries: nat) {
    && crew.coder(i, lastError) == Coded && crew.gate(i) == None
    && crew.review(i) == Approved && !crew.commandRaises(i)
    && TestPasses(crew, i, maxRetries)
  }

  /** What the oracles say at the attempt on which a run ends so. */
  ghost predicate EndsOn(crew: Crew, i: int, lastError: string, maxRetries: nat, ending: Ending) {
    var reaches := crew.coder(i, lastError) == Coded && crew.gate(i) == None;
    match ending
    case CoderFailed => crew.coder(i, lastError).CoderFails?
    case FixLoopExhausted(error) => NeedsRepair(crew, i, lastError, maxRetries, error)
    case ParallelPipelineError => reaches && (crew.review(i) == ReviewRaises || crew.commandRaises(i))
    case ParallelResultInvalid => reaches && crew.review(i) == NotAReview && !crew.commandRaises(i)
    case ReviewRejected => reaches && crew.review(i) == Rejected && !crew.commandRaises(i)
    case CodedReviewedTested => Succeeds(crew, i, lastError, maxRetries)
  }

  lemma DefaultsAreTrimmed()
    ensures Strip("test_failed") == "test_failed" && Strip("sandbox_request_failed") == "sandbox_request_failed"
  {
    StripKeeps("test_failed");
    StripKeeps("sandbox_request_failed");
  }

  lemma TestErrorIff(s: Sandbox, attempt: int, error: string)
    ensures TestError(ResultOf(s, attempt)) == error <==> ReportedAs(s, error)
  {
    DefaultsAreTrimmed();
  }

  /** The verdict on an attempt says what the oracles say. */
  lemma JudgedByTheOracles(crew: Crew, i: int, lastError: string, maxRetries: nat, ending: Ending)
    ensures ending.FixLoopExhausted? ==>
              (Judge(crew, i, lastError, maxRetries) == Repair(ending.lastError)
               <==> NeedsRepair(crew, i, lastError, maxRetries, ending.lastError))
    ensures !ending.FixLoopExhausted? ==>
              (Judge(crew, i, lastError, maxRetries) == Stop(ending)
               <==> EndsOn(crew, i, lastError, maxRetries, ending))
    ensures Judge(crew, i, lastError, maxRetries) != Stop(FixLoopExhausted(lastError))
  {
    TestSucceedsIff(crew.sandbox(i), maxRetries);
    TestedIff(crew, i, maxRetries);
    if ending.FixLoopExhausted? {
      TestErrorIff(crew.sandbox(i)(maxRetries + 1), maxRetries + 1, ending.lastError);
    }
  }

  /**
   * The sandbox runs of an attempt: none unless the stage is reached and the command can be chosen, and else up
   * to the first run that passes, or all that are allowed; the reviewer has no say in it.
   */
  lemma SandboxRunsAre(crew: Crew, i: int, lastError: string, maxRetries: nat)
    ensures var n := SandboxRuns(crew, i, lastError, maxRetries);
            if crew.coder(i, lastError) != Coded || crew.gate(i) != None || crew.commandRaises(i) then n == 0
            else
              && 1 <= n <= maxRetries + 1
              && (forall k :: 1 <= k < n ==> !(crew.sandbox(i)(k).Ran? && crew.sandbox(i)(k).ok))
              && (n <= maxRetries ==> crew.sandbox(i)(n).Ran? && crew.sandbox(i)(n).ok)
  {
    TestSucceedsIff(crew.sandbox(i), maxRetries);
    LastAttemptSettles(crew.sandbox(i), 1, maxRetries + 1);
  }

  lemma TestedIff(crew: Crew, i: int, maxRetries: nat)
    ensures var r := Tested(crew.sandbox(i), maxRetries);
            && (r.success <==> TestPasses(crew, i, maxRetries))
            && (!r.success ==> r == ResultOf(crew.sandbox(i)(maxRetries + 1), maxRetries + 1))
  {
    TestSucceedsIff(crew.sandbox(i), maxRetries);
  }

  // ---------------------------------------------------------------------------
  // The loop
  // ---------------------------------------------------------------------------

  /** Reaching attempt k from attempt i: every attempt before it needs a repair. */
  ghost predicate Chain(crew: Crew, maxRetries: nat, i: int, errors: seq<string>) {
    forall k :: 0 <= k < |errors| - 1 ==> NeedsRepair(crew, i + k, errors[k], maxRetries, errors[k + 1])
  }

  /** How the run ended, the last error each coder run saw, and the sandbox runs. */
  datatype Report = Report(ending: Ending, errors: seq<string>, sandboxRuns: int)

  function Course(crew: Crew, i: int, lastError: string, maxFix: int, maxRetries: nat): Report
    requires i <= maxFix
    decreases maxFix - i
  {
    var runs := SandboxRuns(crew, i, lastError, maxRetries);
    match Judge(crew, i, lastError, maxRetries)
    case Stop(ending) => Report(ending, [lastError], runs)
    case Repair(error) =>
      if i == maxFix then Report(FixLoopExhausted(error), [lastError], runs)
      else
        var rest := Course(crew, i + 1, error, maxFix, maxRetries);
        Report(rest.ending, [lastError] + rest.errors, runs + rest.sandboxRuns)
  }

  lemma SandboxRunsAreBounded(crew: Crew, i: int, lastError: string, maxRetries: nat)
    ensures 0 <= SandboxRuns(crew, i, lastError, maxRetries) <= maxRetries + 1
  {
    TestSucceedsIff(crew.sandbox(i), maxRetries);
  }

  /** At most `each` runs for each of `n` attempts. */
  ghost predicate Bounded(runs: int, n: int, each: int) {
    0 <= runs <= n * each
  }

  lemma OneMore(runs: int, rest: int, n: int, each: int)
    requires 0 <= runs <= each && 0 <= n && Bounded(rest, n, each)
    ensures Bounded(runs + rest, n + 1, each)
  {
  }

  /** The coder runs at most once per attempt, the sandbox at most once per attempt and test retry. */
  lemma {:induction false} CourseIsBounded(crew: Crew, i: int, lastError: string, maxFix: int, maxRetries: nat)
    requires i <= maxFix
    ensures 1 <= |Course(crew, i, lastError, maxFix, maxRetries).errors| <= maxFix - i + 1
    ensures Bounded(Course(crew, i, lastError, maxFix, maxRetries).sandboxRuns, maxFix - i + 1, maxRetries + 1)
    decreases maxFix - i
  {
    var verdict := Judge(crew, i, lastError, maxRetries);
    var runs := SandboxRuns(crew, i, lastError, maxRetries);
    SandboxRunsAreBounded(crew, i, lastError, maxRetries);
    if verdict.Repair? && i < maxFix {
      var rest := Course(crew, i + 1, verdict.error, maxFix, maxRetries);
      CourseIsBounded(crew, i + 1, verdict.error, maxFix, maxRetries);
      OneMore(runs, rest.sandboxRuns, maxFix - i, maxRetries + 1);
      CourseGoesOn(crew, i, lastError, maxFix, maxRetries);
    } else {
      CourseEndsHere(crew, i, lastError, maxFix, maxRetries);
      assert Bounded(0, maxFix - i, maxRetries + 1);
      OneMore(runs, 0, maxFix - i, maxRetries + 1);
    }
  }

  lemma CourseGoesOn(crew: Crew, i: int, lastError: string, maxFix: int, maxRetries: nat)
    requires i < maxFix && Judge(crew, i, lastError, maxRetries).Repair?
    ensures var r := Course(crew, i, lastError, maxFix, maxRetries);
            var rest := Course(crew, i + 1, Judge(crew, i, lastError, maxRetries).error, maxFix, maxRetries);
            && r.ending == rest.ending
            && r.errors == [lastError] + rest.errors
            && r.sandboxRuns == SandboxRuns(crew, i, lastError, maxRetries) + rest.sandboxRuns
  {
  }

  lemma CourseEndsHere(crew: Crew, i: int, lastError: string, maxFix: int, maxRetries: nat)
    requires i <= maxFix && (Judge(crew, i, lastError, maxRetries).Repair? ==> i == maxFix)
    ensures var r, verdict := Course(crew, i, lastError, maxFix, maxRetries), Judge(crew, i, lastError, maxRetries);
            && r.ending == (if verdict.Stop? then verdict.ending else FixLoopExhausted(verdict.error))
            && r.errors == [lastError]
            && r.sandboxRuns == SandboxRuns(crew, i, lastError, maxRetries)
  {
  }

  lemma ChainPrepend(crew: Crew, maxRetries: nat, i: int, lastError: string, errors: seq<string>)
    requires errors != [] && Chain(crew, maxRetries, i + 1, errors)
    requires NeedsRepair(crew, i, lastError, maxRetries, errors[0])
    ensures Chain(crew, maxRetries, i, [lastError] + errors)
  {
    var all := [lastError] + errors;
    forall k | 0 <= k < |all| - 1 ensures NeedsRepair(crew, i + k, all[k], maxRetries, all[k + 1]) {
      if k > 0 {
        assert NeedsRepair(crew, i + 1 + (k - 1), errors[k - 1], maxRetries, errors[k]);
      }
    }
  }

  /**
   * A course from attempt `i`, on the oracles alone: every attempt but the last needs a repair and hands its
   * error on, and the last one ends as it does; the repairs run out only at the limit.
   */
  ghost predicate IsCourse(crew: Crew, i: int, maxFix: int, maxRetries: nat, errors: seq<string>, ending: Ending) {
    var last := |errors| - 1;
    && 0 <= last <= maxFix - i && Chain(crew, maxRetries, i, errors)
    && EndsOn(crew, i + last, errors[last], maxRetries, ending)
    && (ending.FixLoopExhausted? ==> i + last == maxFix)
  }

  lemma {:induction false} CourseIsAChain(crew: Crew, i: int, lastError: string, maxFix: int, maxRetries: nat)
    requires i <= maxFix
    ensures var r := Course(crew, i, lastError, maxFix, maxRetries);
            r.errors != [] && r.errors[0] == lastError && IsCourse(crew, i, maxFix, maxRetries, r.errors, r.ending)
    decreases maxFix - i
  {
    var verdict := Judge(crew, i, lastError, maxRetries);
    var asEnding := if verdict.Stop? then verdict.ending else FixLoopExhausted(verdict.error);
    JudgedByTheOracles(crew, i, lastError, maxRetries, asEnding);
    if verdict.Repair? && i < maxFix {
      var rest := Course(crew, i + 1, verdict.error, maxFix, maxRetries);
      CourseIsAChain(crew, i + 1, verdict.error, maxFix, maxRetries);
      CourseGoesOn(crew, i, lastError, maxFix, maxRetries);
      ChainPrepend(crew, maxRetries, i, lastError, rest.errors);
      assert ([lastError] + rest.errors)[|rest.errors|] == rest.errors[|rest.errors| - 1];
    } else {
      CourseEndsHere(crew, i, lastError, maxFix, maxRetries);
    }
  }

  lemma OneReport(s: Sandbox, a: string, b: string)
    requires ReportedAs(s, a) && ReportedAs(s, b)
    ensures a == b
  {
  }

  lemma OneRepair(crew: Crew, i: int, lastError: string, maxRetries: nat, a: string, b: string)
    requires NeedsRepair(crew, i, lastError, maxRetries, a) && NeedsRepair(crew, i, lastError, maxRetries, b)
    ensures a == b
  {
    if crew.gate(i) == None {
      OneReport(crew.sandbox(i)(maxRetries + 1), a, b);
    }
  }

  /** Two chains from the same attempt and error agree as far as both go. */
  lemma {:induction false} ChainIsUnique(crew: Crew, maxRetries: nat, i: int, a: seq<string>, b: seq<string>, k: nat)
    requires Chain(crew, maxRetries, i, a) && Chain(crew, maxRetries, i, b)
    requires k < |a| && k < |b| && a[0] == b[0]
    ensures a[k] == b[k]
  {
    if k == 0 {
    } else {
      ChainIsUnique(crew, maxRetries, i, a, b, k - 1);
      assert NeedsRepair(crew, i + (k - 1), a[k - 1], maxRetries, a[k]);
      assert NeedsRepair(crew, i + (k - 1), b[k - 1], maxRetries, b[k]);
      OneRepair(crew, i + (k - 1), a[k - 1], maxRetries, a[k], b[k]);
    }
  }

  /** An attempt on which a run ended, before the limit, needed no repair. */
  lemma EndedHere(crew: Crew, i: int, lastError: string, maxRetries: nat, ending: Ending, error: string)
    requires EndsOn(crew, i, lastError, maxRetries, ending)
    ensures NeedsRepair(crew, i, lastError, maxRetries, error) ==> ending == FixLoopExhausted(error)
  {
    if NeedsRepair(crew, i, lastError, maxRetries, error) {
      OneEnding(crew, i, lastError, maxRetries, ending, FixLoopExhausted(error));
    }
  }

  /** No chain goes on where a course has ended. */
  lemma CourseIsNotShorter(crew: Crew, i: int, maxFix: int, maxRetries: nat, a: seq<string>, b: seq<string>,
                           ending: Ending, other: Ending)
    requires IsCourse(crew, i, maxFix, maxRetries, a, ending) && IsCourse(crew, i, maxFix, maxRetries, b, other)
    requires a[0] == b[0]
    ensures |b| <= |a|
  {
    if |b| > |a| {
      var k := |a| - 1;
      ChainIsUnique(crew, maxRetries, i, a, b, k);
      EndedHere(crew, i + k, a[k], maxRetries, ending, b[k + 1]);
    }
  }

  /** The oracles determine the course. */
  lemma OneCourse(crew: Crew, i: int, maxFix: int, maxRetries: nat, a: seq<string>, b: seq<string>, ending: Ending,
                  other: Ending)
    requires IsCourse(crew, i, maxFix, maxRetries, a, ending) && IsCourse(crew, i, maxFix, maxRetries, b, other)
    requires a[0] == b[0]
    ensures a == b && ending == other
  {
    CourseIsNotShorter(crew, i, maxFix, maxRetries, a, b, ending, other);
    CourseIsNotShorter(crew, i, maxFix, maxRetries, b, a, other, ending);
    forall k | 0 <= k < |a| ensures a[k] == b[k] {
      ChainIsUnique(crew, maxRetries, i, a, b, k);
    }
    var last := |a| - 1;
    OneEnding(crew, i + last, a[last], maxRetries, ending, other);
  }

  lemma OneEnding(crew: Crew, i: int, lastError: string, maxRetries: nat, ending: Ending, other: Ending)
    requires EndsOn(crew, i, lastError, maxRetries, ending) && EndsOn(crew, i, lastError, maxRetries, other)
    ensures ending == other
  {
    if ending.FixLoopExhausted? && other.FixLoopExhausted? {
      OneRepair(crew, i, lastError, maxRetries, ending.lastError, other.lastError);
    }
  }

  /** The loop ends so, and its coder runs saw these errors, if and only if the oracles say so. */
  lemma CourseIff(crew: Crew, maxFix: nat, maxRetries: nat, errors: seq<string>, ending: Ending)
    ensures var r := Course(crew, 0, "", maxFix, maxRetries);
            r.ending == ending && r.errors == errors
            <==> errors != [] && errors[0] == "" && IsCourse(crew, 0, maxFix, maxRetries, errors, ending)
  {
    var r := Course(crew, 0, "", maxFix, maxRetries);
    CourseIsAChain(crew, 0, "", maxFix, maxRetries);
    if errors != [] && errors[0] == "" && IsCourse(crew, 0, maxFix, maxRetries, errors, ending) {
      OneCourse(crew, 0, maxFix, maxRetries, errors, r.errors, ending, r.ending);
    }
  }

  /**
   * Attempt `i` of a run, before the limit: if it needs a repair, the run goes on and the next coder sees
   * exactly its error.
   */
  lemma RepairGoesOn(crew: Crew, maxFix: nat, maxRetries: nat, i: nat, error: string)
    requires var seen := Course(crew, 0, "", maxFix, maxRetries).errors;
             i < maxFix && i < |seen| && NeedsRepair(crew, i, seen[i], maxRetries, error)
    ensures var seen := Course(crew, 0, "", maxFix, maxRetries).errors;
            i + 1 < |seen| && seen[i + 1] == error
  {
    var r := Course(crew, 0, "", maxFix, maxRetries);
    CourseIsAChain(crew, 0, "", maxFix, maxRetries);
    if i + 1 < |r.errors| {
      assert NeedsRepair(crew, 0 + i, r.errors[i], maxRetries, r.errors[i + 1]);
      OneRepair(crew, i, r.errors[i], maxRetries, r.errors[i + 1], error);
    } else {
      OneEnding(crew, i, r.errors[i], maxRetries, r.ending, FixLoopExhausted(error));
    }
  }

  /** Some chain of repairs within the limit leads to an attempt that passes coder, gate, review and test. */
  ghost predicate CanPass(crew: Crew, maxFix: int, maxRetries: nat) {
    exists errors :: PassesAfter(crew, maxFix, maxRetries, errors)
  }

  ghost predicate PassesAfter(crew: Crew, maxFix: int, maxRetries: nat, errors: seq<string>) {
    && 1 <= |errors| <= maxFix + 1 && errors[0] == "" && Chain(crew, maxRetries, 0, errors)
    && Succeeds(crew, |errors| - 1, errors[|errors| - 1], maxRetries)
  }

  /** The loop ends with success if and only if repairs within the limit lead to an attempt that passes everything. */
  lemma DoneIff(crew: Crew, maxFix: nat, maxRetries: nat)
    ensures Course(crew, 0, "", maxFix, maxRetries).ending == CodedReviewedTested <==> CanPass(crew, maxFix, maxRetries)
  {
    var r := Course(crew, 0, "", maxFix, maxRetries);
    if r.ending == CodedReviewedTested {
      CourseIff(crew, maxFix, maxRetries, r.errors, r.ending);
      assert PassesAfter(crew, maxFix, maxRetries, r.errors);
    }
    if CanPass(crew, maxFix, maxRetries) {
      var errors :| PassesAfter(crew, maxFix, maxRetries, errors);
      CourseIff(crew, maxFix, maxRetries, errors, CodedReviewedTested);
    }
  }

  // ---------------------------------------------------------------------------
  // The event log
  // ---------------------------------------------------------------------------

  function CoderLog(crew: Crew, i: int, lastError: string): seq<Emitted> {
    Progresses((if i > 0 then 1 else 0) + crew.coderProgress(i)) +
    match crew.coder(i, lastError)
    case Coded => []
    case CoderFails(reason) => [Progress, TaskFailed(reason)]
  }

  /** Announcing the stage, the reviewer's and the tester's progress, and the end of a stage that raised. */
  function StageLog(crew: Crew, i: int, maxRetries: nat): seq<Emitted> {
    TestSucceedsIff(crew.sandbox(i), maxRetries);
    var test := if crew.commandRaises(i) then 0 else 2 * Tested(crew.sandbox(i), maxRetries).attempts;
    Progresses(1 + crew.stageProgress(i) + test) +
    if StageRaises(crew, i) then [Progress, TaskFailed(Reason(ParallelPipelineError))] else []
  }

  /** The event that ends the task, where the orchestrator itself publishes it. */
  function EndLog(crew: Crew, i: int, verdict: Verdict): seq<Emitted> {
    match verdict
    case Repair(_) => []
    case Stop(CodedReviewedTested) => Progresses(crew.packagingProgress(i)) + [TaskDone]
    case Stop(CoderFailed) => []
    case Stop(ParallelPipelineError) => []
    case Stop(ending) => [TaskFailed(Reason(ending))]
  }

  function AttemptLog(crew: Crew, i: int, lastError: string, maxRetries: nat): seq<Emitted> {
    CoderLog(crew, i, lastError) +
    (if ReachesStage(crew, i, lastError) then StageLog(crew, i, maxRetries) else []) +
    EndLog(crew, i, Judge(crew, i, lastError, maxRetries))
  }

  function CourseLog(crew: Crew, i: int, lastError: string, maxFix: int, maxRetries: nat): seq<Emitted>
    requires i <= maxFix
    decreases maxFix - i
  {
    AttemptLog(crew, i, lastError, maxRetries) +
    match Judge(crew, i, lastError, maxRetries)
    case Stop(_) => []
    case Repair(error) =>
      if i == maxFix then [TaskFailed("fix_loop_exhausted")]
      else CourseLog(crew, i + 1, error, maxFix, maxRetries)
  }

  ghost predicate OnlyProgress(log: seq<Emitted>) {
    forall k :: 0 <= k < |log| ==> log[k] == Progress
  }

  /** The last event, and no other, ends the task. */
  ghost predicate EndsOnce(log: seq<Emitted>) {
    log != [] && log[|log| - 1] != Progress && OnlyProgress(log[..|log| - 1])
  }

  /** The event that ends a run that ended so on attempt `i`. */
  ghost predicate Announces(crew: Crew, i: int, lastError: string, ending: Ending, e: Emitted) {
    match ending
    case CoderFailed => crew.coder(i, lastError).CoderFails? && e == TaskFailed(crew.coder(i, lastError).reason)
    case FixLoopExhausted(_) => e == TaskFailed("fix_loop_exhausted")
    case ParallelPipelineError => e == TaskFailed("parallel_pipeline_error")
    case ParallelResultInvalid => e == TaskFailed("parallel_result_invalid")
    case ReviewRejected => e == TaskFailed("review_rejected")
    case CodedReviewedTested => e == TaskDone
  }

  lemma PrependProgress(a: seq<Emitted>, b: seq<Emitted>)
    requires OnlyProgress(a)
    ensures OnlyProgress(b) ==> OnlyProgress(a + b)
    ensures EndsOnce(b) ==> EndsOnce(a + b) && (a + b)[|a + b| - 1] == b[|b| - 1]
  {
    if EndsOnce(b) {
      assert (a + b)[..|a + b| - 1] == a + b[..|b| - 1];
    }
  }

  lemma EndOnce(n: nat, e: Emitted)
    requires e != Progress
    ensures EndsOnce(Progresses(n) + [e]) && EndsOnce(Progresses(n) + [Progress, e])
  {
    assert EndsOnce([e]) && EndsOnce([Progress, e]);
    PrependProgress(Progresses(n), [e]);
    PrependProgress(Progresses(n), [Progress, e]);
  }

  /** An attempt that stops ends the task; one that asks for a repair only makes progress. */
  lemma AttemptEndsOnce(crew: Crew, i: int, lastError: string, maxRetries: nat)
    ensures var log, verdict := AttemptLog(crew, i, lastError, maxRetries), Judge(crew, i, lastError, maxRetries);
            if verdict.Repair? then OnlyProgress(log)
            else EndsOnce(log) && Announces(crew, i, lastError, verdict.ending, log[|log| - 1])
  {
    var verdict := Judge(crew, i, lastError, maxRetries);
    var coder, stage, end := CoderLog(crew, i, lastError), StageLog(crew, i, maxRetries), EndLog(crew, i, verdict);
    if crew.coder(i, lastError).CoderFails? {
      EndOnce((if i > 0 then 1 else 0) + crew.coderProgress(i), TaskFailed(crew.coder(i, lastError).reason));
      assert AttemptLog(crew, i, lastError, maxRetries) == coder;
    } else {
      assert OnlyProgress(coder);
      JudgedByTheOracles(crew, i, lastError, maxRetries, FixLoopExhausted(lastError));
      EndEndsOnce(crew, i, lastError, verdict);
      if crew.gate(i).Some? {
        assert coder + [] == coder;
        PrependProgress(coder, end);
      } else {
        StageEndsOnce(crew, i, maxRetries);
        if StageRaises(crew, i) {
          PrependProgress(coder, stage);
          assert coder + stage + end == coder + stage;
        } else {
          PrependProgress(stage, end);
          PrependProgress(coder, stage + end);
          assert coder + stage + end == coder + (stage + end);
        }
      }
    }
  }

  lemma EndEndsOnce(crew: Crew, i: int, lastError: string, verdict: Verdict)
    ensures var end := EndLog(crew, i, verdict);
            if verdict.Repair? || verdict == Stop(CoderFailed) || verdict == Stop(ParallelPipelineError) then end == []
            else EndsOnce(end) && Announces(crew, i, lastError, verdict.ending, end[|end| - 1])
  {
    if verdict == Stop(CodedReviewedTested) {
      EndOnce(crew.packagingProgress(i), TaskDone);
    }
  }

  lemma StageEndsOnce(crew: Crew, i: int, maxRetries: nat)
    ensures var stage := StageLog(crew, i, maxRetries);
            if !StageRaises(crew, i) then OnlyProgress(stage)
            else EndsOnce(stage) && stage[|stage| - 1] == TaskFailed(Reason(ParallelPipelineError))
  {
    TestSucceedsIff(crew.sandbox(i), maxRetries);
    var test := if crew.commandRaises(i) then 0 else 2 * Tested(crew.sandbox(i), maxRetries).attempts;
    EndOnce(1 + crew.stageProgress(i) + test, TaskFailed(Reason(ParallelPipelineError)));
  }

  /** How many events an attempt publishes, by what the oracles say. */
  lemma AttemptEvents(crew: Crew, i: int, lastError: string, maxRetries: nat)
    ensures var n := |AttemptLog(crew, i, lastError, maxRetries)|;
            var coding := (if i > 0 then 1 else 0) + crew.coderProgress(i);
            var staged := coding + 1 + crew.stageProgress(i) + 2 * SandboxRuns(crew, i, lastError, maxRetries);
            if crew.coder(i, lastError) != Coded then n == coding + 2
            else if crew.gate(i) != None then n == coding
            else if crew.review(i) == ReviewRaises || crew.commandRaises(i) then n == staged + 2
            else if crew.review(i) != Approved then n == staged + 1
            else if TestPasses(crew, i, maxRetries) then n == staged + crew.packagingProgress(i) + 1
            else n == staged
  {
    TestSucceedsIff(crew.sandbox(i), maxRetries);
    TestedIff(crew, i, maxRetries);
  }

  /** A run publishes exactly one event that ends the task, as its last, and that one names the ending. */
  lemma {:induction false} OneTerminalEvent(crew: Crew, i: int, lastError: string, maxFix: int, maxRetries: nat)
    requires i <= maxFix
    ensures var log := CourseLog(crew, i, lastError, maxFix, maxRetries);
            var r := Course(crew, i, lastError, maxFix, maxRetries);
            var last := |r.errors| - 1;
            && log != [] && log[|log| - 1] != Progress && (forall k :: 0 <= k < |log| - 1 ==> log[k] == Progress)
            && last >= 0 && Announces(crew, i + last, r.errors[last], r.ending, log[|log| - 1])
    decreases maxFix - i
  {
    var verdict := Judge(crew, i, lastError, maxRetries);
    var here := AttemptLog(crew, i, lastError, maxRetries);
    AttemptEndsOnce(crew, i, lastError, maxRetries);
    if verdict.Stop? {
      CourseEndsHere(crew, i, lastError, maxFix, maxRetries);
      assert CourseLog(crew, i, lastError, maxFix, maxRetries) == here;
    } else if i == maxFix {
      CourseEndsHere(crew, i, lastError, maxFix, maxRetries);
      assert EndsOnce([TaskFailed("fix_loop_exhausted")]);
      PrependProgress(here, [TaskFailed("fix_loop_exhausted")]);
    } else {
      CourseGoesOn(crew, i, lastError, maxFix, maxRetries);
      OneTerminalEvent(crew, i + 1, verdict.error, maxFix, maxRetries);
      var rest := CourseLog(crew, i + 1, verdict.error, maxFix, maxRetries);
      assert EndsOnce(rest);
      PrependProgress(here, rest);
    }
    assert EndsOnce(CourseLog(crew, i, lastError, maxFix, maxRetries));
    EndsOnceMeans(CourseLog(crew, i, lastError, maxFix, maxRetries));
  }

  lemma EndsOnceMeans(log: seq<Emitted>)
    requires EndsOnce(log)
    ensures forall k :: 0 <= k < |log| - 1 ==> log[k] == Progress
  {
    forall k | 0 <= k < |log| - 1 ensures log[k] == Progress {
      assert log[..|log| - 1][k] == Progress;
    }
  }

  // ---------------------------------------------------------------------------
  // The orchestrator
  // ---------------------------------------------------------------------------

  /** The stage as a DAG: the coder has run; review and test wait for it and run in one wave. */
  const STAGE: seq<DagScheduler.Node> := [
    DagScheduler.Node("review", ["coder"]),
    DagScheduler.Node("test", ["coder"]),
    DagScheduler.Node("coder", [])
  ]

  function StageOutcome(reviewRaises: bool, testRaises: bool): string -> DagScheduler.Outcome {
    (n: string) =>
      if (n == "review" && reviewRaises) || (n == "test" && testRaises) then DagScheduler.Raises
      else DagScheduler.Returns(n)
  }

  lemma StageNames()
    ensures "review" != "test" && "review" != "coder" && "test" != "coder"
  {
    assert "review"[0] == 'r' && "test"[0] == 't' && "coder"[0] == 'c';
  }

  lemma StageGraph()
    ensures DagScheduler.DistinctNames(STAGE)
    ensures DagScheduler.GraphOf(STAGE) == map["review" := ["coder"], "test" := ["coder"], "coder" := []]
  {
    StageNames();
    assert STAGE[..2] == [STAGE[0], STAGE[1]] && STAGE[..2][..1] == [STAGE[0]] && STAGE[..2][..1][..0] == [];
    assert DagScheduler.GraphOf([]) == map[];
    assert DagScheduler.GraphOf(STAGE[..2][..1]) == map["review" := ["coder"]];
    assert DagScheduler.GraphOf(STAGE[..2]) == map["review" := ["coder"], "test" := ["coder"]];
  }

  lemma StageChain(g: DagScheduler.Graph, c: seq<string>)
    requires g == map["review" := ["coder"], "test" := ["coder"], "coder" := []]
    requires DagScheduler.Chain(g, c) && |c| >= 2
    ensures c[0] == "coder" != c[|c| - 1]
  {
    StageNames();
    assert c[0] in g[c[1]];
    assert c[|c| - 2] in g[c[|c| - 1]];
  }

  lemma StageIsAcyclic()
    ensures DagScheduler.DependenciesKnown(DagScheduler.GraphOf(STAGE))
    ensures !DagScheduler.Cyclic(DagScheduler.GraphOf(STAGE))
  {
    StageNames();
    StageGraph();
    var g := DagScheduler.GraphOf(STAGE);
    forall c | DagScheduler.Chain(g, c) && |c| >= 2 ensures c[0] != c[|c| - 1] {
      StageChain(g, c);
    }
  }

  /** The scheduler returns results for the stage exactly if neither node raises. */
  method RunStage(reviewRaises: bool, testRaises: bool) returns (ok: bool)
    ensures ok <==> !reviewRaises && !testRaises
  {
    StageNames();
    StageIsAcyclic();
    StageGraph();
    var run := StageOutcome(reviewRaises, testRaises);
    assert !reviewRaises && !testRaises ==> forall n :: run(n).Returns?;
    var results, waves := DagScheduler.Run(STAGE, run);
    ok := results.Success?;
    if ok {
      assert "review" in DagScheduler.GraphOf(STAGE) && "test" in DagScheduler.GraphOf(STAGE);
      assert run("review").Returns? && run("test").Returns?;
    }
  }

  class Orchestrator {
    const tester: TesterAgent
    const journal: Journal
    ghost var errorsSeen: seq<string>
    ghost var sandboxRuns: int

    constructor (tester: TesterAgent, journal: Journal)
      ensures this.tester == tester && this.journal == journal && errorsSeen == [] && sandboxRuns == 0
    {
      this.tester, this.journal := tester, journal;
      errorsSeen, sandboxRuns := [], 0;
    }

    /** None if the review or the test raised, and then the task has failed. */
    method RunReviewAndTest(crew: Crew, i: int) returns (r: Option<(Reviewed, TesterResult)>)
      modifies journal, this`sandboxRuns
      ensures r == if StageRaises(crew, i) then None
                   else Some((crew.review(i), Tested(crew.sandbox(i), tester.maxRetries)))
      ensures journal.log == old(journal.log) + StageLog(crew, i, tester.maxRetries)
      ensures sandboxRuns == old(sandboxRuns)
                + if crew.commandRaises(i) then 0 else Tested(crew.sandbox(i), tester.maxRetries).attempts
    {
      journal.PublishProgress(1 + crew.stageProgress(i));
      var test := ResultOf(DispatchFailed(""), 1);
      if !crew.commandRaises(i) {
        test := tester.Execute(crew.sandbox(i), journal);
        sandboxRuns := sandboxRuns + test.attempts;
      }
      var ok := RunStage(crew.review(i) == ReviewRaises, crew.commandRaises(i));
      if ok {
        return Some((crew.review(i), test));
      }
      journal.Publish(Progress);
      journal.Publish(TaskFailed("parallel_pipeline_error"));
      return None;
    }

    /** The body of the loop up to the verdict. */
    method RunAttempt(crew: Crew, i: nat, lastError: string) returns (verdict: Verdict)
      modifies journal, this`sandboxRuns
      ensures verdict == Judge(crew, i, lastError, tester.maxRetries)
      ensures sandboxRuns == old(sandboxRuns) + SandboxRuns(crew, i, lastError, tester.maxRetries)
      ensures journal.log == old(journal.log) + AttemptLog(crew, i, lastError, tester.maxRetries)
    {
      journal.PublishProgress((if i > 0 then 1 else 0) + crew.coderProgress(i));
      match crew.coder(i, lastError) {
        case CoderFails(reason) =>
          journal.Publish(Progress);
          journal.Publish(TaskFailed(reason));
          return Stop(CoderFailed);
        case Coded =>
      }
      if crew.gate(i).Some? {
        return Repair(crew.gate(i).value);
      }
      assert journal.log == old(journal.log) + CoderLog(crew, i, lastError);
      var results := RunReviewAndTest(crew, i);
      if results.None? {
        return Stop(ParallelPipelineError);
      }
      verdict := Conclude(crew, i, results.value.0, results.value.1);
    }

    /** After the stage: publish the end of the task, unless the tests ask for a repair. */
    method Conclude(crew: Crew, i: nat, review: Reviewed, test: TesterResult) returns (verdict: Verdict)
      requires review != ReviewRaises
      modifies journal
      ensures verdict == AfterStage(review, test)
      ensures journal.log == old(journal.log) + EndLog(crew, i, verdict)
    {
      if review == NotAReview {
        journal.Publish(TaskFailed("parallel_result_invalid"));
        return Stop(ParallelResultInvalid);
      }
      if review != Approved {
        journal.Publish(TaskFailed("review_rejected"));
        return Stop(ReviewRejected);
      }
      if !test.success {
        return Repair(TestError(test));
      }
      journal.PublishProgress(crew.packagingProgress(i));
      journal.Publish(TaskDone);
      return Stop(CodedReviewedTested);
    }

    /** Once round the loop: the error to go round again with, or the ending. `before` is the log so far. */
    method RunRound(crew: Crew, i: nat, lastError: string, maxFix: nat, ghost start: seq<Emitted>,
                    ghost before: seq<Emitted>)
      returns (next: Result<string, Ending>, ghost log: seq<Emitted>)
      requires i <= maxFix && journal.log == start + before
      requires OnCourse(crew, maxFix, tester.maxRetries, errorsSeen, sandboxRuns, before, i, lastError)
      modifies this, journal
      ensures errorsSeen == old(errorsSeen) + [lastError] && journal.log == start + log
      ensures next.Success? ==>
        i < maxFix && OnCourse(crew, maxFix, tester.maxRetries, errorsSeen, sandboxRuns, log, i + 1, next.value)
      ensures next.Failure? ==> Finished(crew, maxFix, tester.maxRetries, errorsSeen, sandboxRuns, log, next.error)
    {
      ghost var errors, runs := errorsSeen, sandboxRuns;
      var verdict := RunAttempt(crew, i, lastError);
      log := before + AttemptLog(crew, i, lastError, tester.maxRetries);
      ConcatAssociates(start, before, AttemptLog(crew, i, lastError, tester.maxRetries));
      errorsSeen := errorsSeen + [lastError];
      if verdict.Repair? && i < maxFix {
        CourseContinues(crew, maxFix, tester.maxRetries, errors, runs, before, i, lastError);
        return Success(verdict.error), log;
      }
      CourseStops(crew, maxFix, tester.maxRetries, errors, runs, before, i, lastError);
      if verdict.Stop? {
        return Failure(verdict.ending), log;
      }
      journal.Publish(TaskFailed("fix_loop_exhausted"));
      ConcatAssociates(start, log, [TaskFailed("fix_loop_exhausted")]);
      log := log + [TaskFailed("fix_loop_exhausted")];
      return Failure(FixLoopExhausted(verdict.error)), log;
    }

    /** `_handle_code_change`: the ending, and on which attempt. */
    method HandleCodeChange(crew: Crew, maxFix: nat) returns (ending: Ending, fixAttempt: nat)
      modifies this, journal
      ensures Report(ending, errorsSeen, sandboxRuns) == Course(crew, 0, "", maxFix, tester.maxRetries)
      ensures fixAttempt == |errorsSeen| - 1
      ensures errorsSeen[0] == "" && IsCourse(crew, 0, maxFix, tester.maxRetries, errorsSeen, ending)
      ensures journal.log == old(journal.log) + CourseLog(crew, 0, "", maxFix, tester.maxRetries)
    {
      CourseIsAChain(crew, 0, "", maxFix, tester.maxRetries);
      fixAttempt, errorsSeen, sandboxRuns := 0, [], 0;
      var lastTestError := "";
      ghost var log: seq<Emitted> := [];
      while true
        invariant fixAttempt <= maxFix && |errorsSeen| == fixAttempt && journal.log == old(journal.log) + log
        invariant OnCourse(crew, maxFix, tester.maxRetries, errorsSeen, sandboxRuns, log, fixAttempt, lastTestError)
        decreases maxFix - fixAttempt
      {
        var next;
        next, log := RunRound(crew, fixAttempt, lastTestError, maxFix, old(journal.log), log);
        if next.Failure? {
          return next.error, fixAttempt;
        }
        lastTestError := next.value;
        fixAttempt := fixAttempt + 1;
      }
    }
  }

  /** The whole course, run to its end. */
  ghost predicate Finished(crew: Crew, maxFix: nat, maxRetries: nat, errors: seq<string>, runs: int, log: seq<Emitted>,
                           ending: Ending) {
    && Course(crew, 0, "", maxFix, maxRetries) == Report(ending, errors, runs)
    && CourseLog(crew, 0, "", maxFix, maxRetries) == log
  }

  /** What has happened so far, followed by the course from attempt `i`, is the whole course. */
  ghost predicate OnCourse(crew: Crew, maxFix: nat, maxRetries: nat, errors: seq<string>, runs: int, log: seq<Emitted>,
                           i: int, lastError: string)
    requires i <= maxFix
  {
    var whole, rest := Course(crew, 0, "", maxFix, maxRetries), Course(crew, i, lastError, maxFix, maxRetries);
    && whole == Report(rest.ending, errors + rest.errors, runs + rest.sandboxRuns)
    && CourseLog(crew, 0, "", maxFix, maxRetries) == log + CourseLog(crew, i, lastError, maxFix, maxRetries)
  }

  lemma CourseContinues(crew: Crew, maxFix: nat, maxRetries: nat, errors: seq<string>, runs: int, log: seq<Emitted>,
                        i: int, lastError: string)
    requires i < maxFix && Judge(crew, i, lastError, maxRetries).Repair?
    requires OnCourse(crew, maxFix, maxRetries, errors, runs, log, i, lastError)
    ensures OnCourse(crew, maxFix, maxRetries, errors + [lastError], runs + SandboxRuns(crew, i, lastError, maxRetries),
                     log + AttemptLog(crew, i, lastError, maxRetries),
                     i + 1, Judge(crew, i, lastError, maxRetries).error)
  {
    var error := Judge(crew, i, lastError, maxRetries).error;
    var rest := Course(crew, i + 1, error, maxFix, maxRetries);
    CourseGoesOn(crew, i, lastError, maxFix, maxRetries);
    ConcatAssociates(errors, [lastError], rest.errors);
    ConcatAssociates(log, AttemptLog(crew, i, lastError, maxRetries),
                     CourseLog(crew, i + 1, error, maxFix, maxRetries));
  }

  lemma CourseStops(crew: Crew, maxFix: nat, maxRetries: nat, errors: seq<string>, runs: int, log: seq<Emitted>,
                    i: int, lastError: string)
    requires i <= maxFix && (Judge(crew, i, lastError, maxRetries).Repair? ==> i == maxFix)
    requires OnCourse(crew, maxFix, maxRetries, errors, runs, log, i, lastError)
    ensures var whole, verdict := Course(crew, 0, "", maxFix, maxRetries), Judge(crew, i, lastError, maxRetries);
            && whole == Report(if verdict.Stop? then verdict.ending else FixLoopExhausted(verdict.error),
                               errors + [lastError], runs + SandboxRuns(crew, i, lastError, maxRetries))
            && CourseLog(crew, 0, "", maxFix, maxRetries) == log + AttemptLog(crew, i, lastError, maxRetries)
                 + if verdict.Stop? then [] else [TaskFailed("fix_loop_exhausted")]
  {
    CourseEndsHere(crew, i, lastError, maxFix, maxRetries);
  }

  /** MVP_FIX_LOOP_MAX_ATTEMPTS: 3 if blank or not an integer, else its value pushed into 1..3. */
  function MaxFixAttempts(blank: bool, parsed: Option<int>): (r: nat)
    ensures blank || parsed.None? ==> r == 3
    ensures !blank && parsed.Some? && 1 <= parsed.value <= 3 ==> r == parsed.value
    ensures !blank && parsed.Some? && parsed.value < 1 ==> r == 1
    ensures !blank && parsed.Some? && parsed.value > 3 ==> r == 3
  {
    if blank then 3
    else match parsed
      case None => 3
      case Some(value) => if value < 1 then 1 else if value > 3 then 3 else value
  }

  /** With the limits of the constructor and the environment: at most 4 coder runs and 16 sandbox runs. */
  lemma RunIsBounded(crew: Crew, blank: bool, parsed: Option<int>, maxRetries: nat)
    requires maxRetries <= 3
    ensures var r := Course(crew, 0, "", MaxFixAttempts(blank, parsed), maxRetries);
            |r.errors| <= 4 && r.sandboxRuns <= 16
  {
    var maxFix := MaxFixAttempts(blank, parsed);
    CourseIsBounded(crew, 0, "", maxFix, maxRetries);
    assert (maxFix + 1) * (maxRetries + 1) <= 4 * (maxRetries + 1);
  }
}
