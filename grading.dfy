/** The per-submission flow of `main`: for every submission folder not
    starting with `_`, a report is created, the early checks run in a fixed
    order (folder found, `pyproject.toml` present, folder size), then the
    build, the run of the entry point and the test cases, and finally the
    verdict defaults to true if nothing wrote false. What the file system,
    the build tool, the running process and the database did is an input. */
module Grading {
  import opened Wrappers
  import opened Strings
  import opened Json
  import opened Reports
  import opened TestCases

  /** The settings of the resolved configuration the flow reads. */
  datatype GradingConfig = GradingConfig(
    question: string,                // `name`
    projectTypeSetting: Option<bool>, // truth value of `project_type`, if present
    maxFolderSizeSetting: Option<real>, // `maxFolderSize` in KB, if present
    tests: seq<TestCase>)            // `test_cases`

  /** `json_config.get('project_type', True)` */
  function ProjectType(cfg: GradingConfig): bool {
    cfg.projectTypeSetting.GetOr(true)
  }

  /** `json_config.get('maxFolderSize', 2048)` */
  function MaxFolderSize(cfg: GradingConfig): real {
    cfg.maxFolderSizeSetting.GetOr(2048.0)
  }

  /** The folder found for the question: whether it holds `pyproject.toml`,
      the total size of its files in bytes, and how Python prints that size in KB. */
  datatype Folder = Folder(hasToml: bool, totalBytes: nat, sizeText: string)

  /** The size compared with the limit: bytes divided by 1024. */
  function SizeKb(f: Folder): real {
    f.totalBytes as real / 1024.0
  }

  /** `poetry lock` and `poetry install`: fine, or an exception, after which
      the output captured so far is appended if the process was still alive. */
  datatype BuildOutcome = Built | BuildRaised(killedOutput: Option<string>)

  /** The run of the entry point: finished (with the hours it took, as
      printed), timed out, or failed with an exception. */
  datatype RunOutcome = Finished(hoursText: string) | TimedOut | RunRaised(message: string)

  /** The memory monitor's report, if it killed the process: usage and limit as printed. */
  datatype MemoryKill = MemoryKill(usageText: string, limitText: string)

  /** One submission folder and what happened while grading it. */
  datatype Submission = Submission(
    name: string,
    folder: Option<Folder>,
    build: BuildOutcome,
    memory: Option<MemoryKill>,
    run: RunOutcome,
    observations: seq<Observation>)

  /** The observations fit the configured test cases. */
  predicate Observed(cfg: GradingConfig, sub: Submission) {
    AllFit(cfg.tests, sub.observations)
  }

  /** The exception branch of the build. */
  function BuildEffect(b: BuildOutcome): Effect {
    match b
    case Built => NO_EFFECT
    case BuildRaised(output) =>
      Effect(true, [BuildFailed] + (if output.Some? then [BuildOutput(output.value)] else []))
  }

  /** The memory monitor's line. The model places it before the run's own
      lines; the monitor's thread races with the main thread, so this is one
      of the orders the source allows. */
  function MemoryEffect(m: Option<MemoryKill>): Effect {
    if m.Some? then Effect(true, [MemoryExceeded(m.value.usageText, m.value.limitText)]) else NO_EFFECT
  }

  /** The run's own line, or the lines of its two `except` branches. */
  function RunOutcomeEffect(run: RunOutcome): Effect {
    match run
    case Finished(hours) => Effect(false, [ProcessTook(hours)])
    case TimedOut => Effect(true, [ProcessTimedOut])
    case RunRaised(message) => Effect(true, [RunFailed, ErrorText(message)])
  }

  /** Everything grading does to a submission's report before the final default. */
  function SubmissionEffect(cfg: GradingConfig, sub: Submission, parse: string -> Parsed): Effect
    requires Observed(cfg, sub)
  {
    if sub.folder.None? then Effect(true, [NoFolder(cfg.question)])
    else if ProjectType(cfg) && !sub.folder.value.hasToml then Effect(true, [NoProjectFile])
    else if SizeKb(sub.folder.value) > MaxFolderSize(cfg) then Effect(true, [FolderTooLarge(sub.folder.value.sizeText)])
    else if ProjectType(cfg) && sub.build.BuildRaised? then BuildEffect(sub.build)
    else
      Then(if ProjectType(cfg) then Then(MemoryEffect(sub.memory), RunOutcomeEffect(sub.run)) else NO_EFFECT,
           AllTestCases(cfg.tests, sub.observations, parse))
  }

  /** The finished report of a submission: the verdict is true exactly when
      nothing wrote false. */
  function GradeSpec(cfg: GradingConfig, sub: Submission, parse: string -> Parsed): ReportValue
    requires Observed(cfg, sub)
  {
    var e := SubmissionEffect(cfg, sub, parse);
    ReportValue(cfg.question, !e.fails, e.reasons)
  }

  /** A submission passes: its folder is found and small enough, and, for a
      Poetry project, it has `pyproject.toml`, builds, stays within memory and
      finishes in time; and no test case fails. */
  predicate Passes(cfg: GradingConfig, sub: Submission, parse: string -> Parsed)
    requires Observed(cfg, sub)
  {
    && sub.folder.Some?
    && SizeKb(sub.folder.value) <= MaxFolderSize(cfg)
    && (ProjectType(cfg) ==>
          sub.folder.value.hasToml && sub.build.Built? && sub.memory.None? && sub.run.Finished?)
    && forall k :: 0 <= k < |cfg.tests| ==> !CaseFails(cfg.tests, sub.observations, parse, k)
  }

  /** The verdict is true exactly when the submission passes. */
  lemma VerdictIffPasses(cfg: GradingConfig, sub: Submission, parse: string -> Parsed)
    requires Observed(cfg, sub)
    ensures GradeSpec(cfg, sub, parse).verdict <==> Passes(cfg, sub, parse)
  {
    AllTestCasesFail(cfg.tests, sub.observations, parse);
  }

  /** A false verdict always comes with at least one reason. */
  lemma FailureExplained(cfg: GradingConfig, sub: Submission, parse: string -> Parsed)
    requires Observed(cfg, sub)
    ensures !GradeSpec(cfg, sub, parse).verdict ==> |GradeSpec(cfg, sub, parse).reasons| >= 1
  {
    var e := SubmissionEffect(cfg, sub, parse);
    if e.fails && sub.folder.Some? && (!ProjectType(cfg) || sub.folder.value.hasToml)
       && SizeKb(sub.folder.value) <= MaxFolderSize(cfg) && (!ProjectType(cfg) || sub.build.Built?)
       && (!ProjectType(cfg) || (sub.memory.None? && !sub.run.TimedOut? && !sub.run.RunRaised?)) {
      AllTestCasesFail(cfg.tests, sub.observations, parse);
      var k :| 0 <= k < |cfg.tests| && CaseFails(cfg.tests, sub.observations, parse, k);
      TestCaseExplained(k + 1, cfg.tests[k], sub.observations[k], parse);
      TestCaseReasonsKept(cfg.tests, sub.observations, parse, |cfg.tests|, k);
      var off :| BlockAt(AllTestCases(cfg.tests, sub.observations, parse).reasons,
                         TestCaseEffect(k + 1, cfg.tests[k], sub.observations[k], parse).reasons, off);
    }
  }

  /** `block` appears in `rs` as consecutive entries starting at `off`. */
  predicate BlockAt(rs: seq<Reason>, block: seq<Reason>, off: int) {
    0 <= off && off + |block| <= |rs| && rs[off..off + |block|] == block
  }

  /** `block` appears in `rs` as consecutive entries. */
  predicate HasBlock(rs: seq<Reason>, block: seq<Reason>) {
    exists off :: 0 <= off <= |rs| && BlockAt(rs, block, off)
  }

  /** The reasons of each test case appear, in one block, among the reasons
      of all of them. */
  lemma {:induction false} TestCaseReasonsKept(tcs: seq<TestCase>, obs: seq<Observation>, parse: string -> Parsed,
                                                upto: nat, k: nat)
    requires AllFit(tcs, obs) && k < upto <= |tcs|
    ensures HasBlock(TestCasesUpTo(tcs, obs, parse, upto).reasons, TestCaseEffect(k + 1, tcs[k], obs[k], parse).reasons)
  {
    var prev := TestCasesUpTo(tcs, obs, parse, upto - 1).reasons;
    var mine := TestCaseEffect(k + 1, tcs[k], obs[k], parse).reasons;
    var last := TestCaseEffect(upto, tcs[upto - 1], obs[upto - 1], parse).reasons;
    assert TestCasesUpTo(tcs, obs, parse, upto).reasons == prev + last;
    if k < upto - 1 {
      TestCaseReasonsKept(tcs, obs, parse, upto - 1, k);
      BlockKept(prev, last, mine);
    } else {
      BlockAppended(prev, mine);
    }
  }

  /** A block stays in place when more reasons follow. */
  lemma BlockKept(rs: seq<Reason>, more: seq<Reason>, block: seq<Reason>)
    requires HasBlock(rs, block)
    ensures HasBlock(rs + more, block)
  {
    var off :| 0 <= off <= |rs| && BlockAt(rs, block, off);
    assert (rs + more)[off..off + |block|] == rs[off..off + |block|];
    assert BlockAt(rs + more, block, off);
  }

  /** Reasons appended at the end form a block. */
  lemma BlockAppended(rs: seq<Reason>, block: seq<Reason>)
    ensures HasBlock(rs + block, block)
  {
    assert (rs + block)[|rs|..|rs| + |block|] == block;
    assert BlockAt(rs + block, block, |rs|);
  }

  /** A missing folder gives exactly the reason `No folder (<question>) was
      found. I am done.` and nothing else. */
  lemma MissingFolder(cfg: GradingConfig, sub: Submission, parse: string -> Parsed)
    requires Observed(cfg, sub) && sub.folder.None?
    ensures GradeSpec(cfg, sub, parse) == ReportValue(cfg.question, false, [NoFolder(cfg.question)])
    ensures Message(NoFolder(cfg.question)) == "No folder (" + cfg.question + ") was found. I am done."
  {
  }

  /** The early checks run in order and the first that fails is the only
      reason: a missing `pyproject.toml` is reported whatever the folder's size. */
  lemma EarlyChecksInOrder(cfg: GradingConfig, sub: Submission, parse: string -> Parsed)
    requires Observed(cfg, sub) && sub.folder.Some?
    ensures ProjectType(cfg) && !sub.folder.value.hasToml ==>
              GradeSpec(cfg, sub, parse).reasons == [NoProjectFile]
    ensures (!ProjectType(cfg) || sub.folder.value.hasToml) && SizeKb(sub.folder.value) > MaxFolderSize(cfg) ==>
              GradeSpec(cfg, sub, parse).reasons == [FolderTooLarge(sub.folder.value.sizeText)]
    ensures (ProjectType(cfg) && !sub.folder.value.hasToml) || SizeKb(sub.folder.value) > MaxFolderSize(cfg) ==>
              !GradeSpec(cfg, sub, parse).verdict
  {
  }

  /** Without a Poetry project nothing is built or run: only the test cases write. */
  lemma NoProjectOnlyTests(cfg: GradingConfig, sub: Submission, parse: string -> Parsed)
    requires Observed(cfg, sub) && !ProjectType(cfg)
    requires sub.folder.Some? && SizeKb(sub.folder.value) <= MaxFolderSize(cfg)
    ensures GradeSpec(cfg, sub, parse).reasons == AllTestCases(cfg.tests, sub.observations, parse).reasons
  {
  }

  /** A run that times out or raises does not stop the test cases: their
      reasons follow the run's. */
  lemma TestsRunAfterFailedRun(cfg: GradingConfig, sub: Submission, parse: string -> Parsed)
    requires Observed(cfg, sub) && ProjectType(cfg)
    requires sub.folder.Some? && sub.folder.value.hasToml && SizeKb(sub.folder.value) <= MaxFolderSize(cfg)
    requires sub.build.Built? && !sub.run.Finished?
    ensures !GradeSpec(cfg, sub, parse).verdict
    ensures var rs := GradeSpec(cfg, sub, parse).reasons;
            var tests := AllTestCases(cfg.tests, sub.observations, parse).reasons;
            |rs| >= |tests| + 1 && rs[|rs| - |tests|..] == tests
  {
  }

  /** `main`'s loop body for one submission folder that does not start with `_`. */
  method GradeSubmission(cfg: GradingConfig, sub: Submission, parse: string -> Parsed) returns (report: Report)
    requires Observed(cfg, sub)
    ensures fresh(report)
    ensures report.verdict.Some? && report.Value() == GradeSpec(cfg, sub, parse)
  {
    report := new Report(cfg.question);
    if sub.folder.None? {
      report.verdict := Some(false);
      report.reasons := report.reasons + [NoFolder(cfg.question)];
      return;
    }
    var folder := sub.folder.value;
    if ProjectType(cfg) && !folder.hasToml {
      report.verdict := Some(false);
      report.reasons := report.reasons + [NoProjectFile];
      return;
    }
    if SizeKb(folder) > MaxFolderSize(cfg) {
      report.verdict := Some(false);
      report.reasons := report.reasons + [FolderTooLarge(folder.sizeText)];
      return;
    }
    if ProjectType(cfg) && sub.build.BuildRaised? {
      report.verdict := Some(false);
      report.reasons := report.reasons + [BuildFailed];
      if sub.build.killedOutput.Some? {
        report.reasons := report.reasons + [BuildOutput(sub.build.killedOutput.value)];
      }
      return;
    }
    ghost var process := if ProjectType(cfg) then Then(MemoryEffect(sub.memory), RunOutcomeEffect(sub.run)) else NO_EFFECT;
    if ProjectType(cfg) {
      RunProcess(report, sub.memory, sub.run);
    }
    assert report.reasons == process.reasons;
    assert report.verdict == if process.fails then Some(false) else None;
    RunTestCases(report, cfg.tests, sub.observations, parse);
    assert Then(process, AllTestCases(cfg.tests, sub.observations, parse)) == SubmissionEffect(cfg, sub, parse);
    report.Finish();
  }

  /** The run of the entry point under the memory monitor: the monitor's kill
      line, then the run's own line or the lines of its `except`. */
  method RunProcess(report: Report, memory: Option<MemoryKill>, run: RunOutcome)
    modifies report
    ensures report.reasons == old(report.reasons) + Then(MemoryEffect(memory), RunOutcomeEffect(run)).reasons
    ensures report.verdict
            == if Then(MemoryEffect(memory), RunOutcomeEffect(run)).fails then Some(false) else old(report.verdict)
  {
    report.Apply(MemoryEffect(memory));
    match run {
      case Finished(hours) =>
        report.reasons := report.reasons + [ProcessTook(hours)];
      case TimedOut =>
        report.verdict := Some(false);
        report.reasons := report.reasons + [ProcessTimedOut];
      case RunRaised(message) =>
        report.verdict := Some(false);
        report.reasons := report.reasons + [RunFailed, ErrorText(message)];
    }
  }

  /** The report of every submission among the first `upto` whose name does
      not start with `_`, keyed by name. */
  function GradeUpTo(cfg: GradingConfig, subs: seq<Submission>, parse: string -> Parsed, upto: nat): map<string, ReportValue>
    requires upto <= |subs| && forall k :: 0 <= k < |subs| ==> Observed(cfg, subs[k])
  {
    if upto == 0 then map[]
    else
      var s := subs[upto - 1];
      var before := GradeUpTo(cfg, subs, parse, upto - 1);
      if StartsWith(s.name, "_") then before else before[s.name := GradeSpec(cfg, s, parse)]
  }

  /** The names that get a report. */
  function GradedNames(subs: seq<Submission>, upto: nat): set<string>
    requires upto <= |subs|
  {
    set k | 0 <= k < upto && !StartsWith(subs[k].name, "_") :: subs[k].name
  }

  /** Exactly the folders whose name does not start with `_` get a report. */
  lemma {:induction false} OnlyUnskippedReported(cfg: GradingConfig, subs: seq<Submission>, parse: string -> Parsed, upto: nat)
    requires upto <= |subs| && forall k :: 0 <= k < |subs| ==> Observed(cfg, subs[k])
    ensures GradeUpTo(cfg, subs, parse, upto).Keys == GradedNames(subs, upto)
  {
    if upto > 0 {
      OnlyUnskippedReported(cfg, subs, parse, upto - 1);
      var s := subs[upto - 1];
      if StartsWith(s.name, "_") {
        assert GradedNames(subs, upto) == GradedNames(subs, upto - 1);
      } else {
        assert GradedNames(subs, upto) == GradedNames(subs, upto - 1) + {s.name};
      }
    }
  }

  /** With distinct folder names, each unskipped folder's report is its graded report. */
  lemma {:induction false} ReportsAreGraded(cfg: GradingConfig, subs: seq<Submission>, parse: string -> Parsed, upto: nat)
    requires upto <= |subs| && forall k :: 0 <= k < |subs| ==> Observed(cfg, subs[k])
    requires forall k, l :: 0 <= k < l < |subs| ==> subs[k].name != subs[l].name
    ensures forall k :: 0 <= k < upto && !StartsWith(subs[k].name, "_") ==>
              subs[k].name in GradeUpTo(cfg, subs, parse, upto)
              && GradeUpTo(cfg, subs, parse, upto)[subs[k].name] == GradeSpec(cfg, subs[k], parse)
  {
    if upto > 0 {
      ReportsAreGraded(cfg, subs, parse, upto - 1);
    }
  }

  /** `for student_folder in os.listdir(assignment_folder)`: skip `_` folders,
      grade the others and collect their reports by name. */
  method GradeAll(cfg: GradingConfig, subs: seq<Submission>, parse: string -> Parsed)
    returns (output: map<string, ReportValue>)
    requires forall k :: 0 <= k < |subs| ==> Observed(cfg, subs[k])
    ensures output == GradeUpTo(cfg, subs, parse, |subs|)
  {
    output := map[];
    var i := 0;
    while i < |subs|
      invariant i <= |subs|
      invariant output == GradeUpTo(cfg, subs, parse, i)
    {
      var sub := subs[i];
      if !StartsWith(sub.name, "_") {
        var report := GradeSubmission(cfg, sub, parse);
        output := output[sub.name := report.Value()];
      }
      i := i + 1;
    }
  }
}
