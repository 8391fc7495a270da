/** The per-submission report `{'question', 'verdict', 'reasons'}` and the
    messages that go into its reasons. */
module Reports {
  import opened Wrappers
  import opened Strings
  import opened Json

  /** One entry of `reasons`. Values Python prints with `str()` of a float
      (sizes, durations, memory) are carried as the printed text. */
  datatype Reason =
    | NoFolder(question: string)
    | NoProjectFile
    | FolderTooLarge(sizeText: string)
    | BuildFailed
    | BuildOutput(output: string)
    | MemoryExceeded(usageText: string, limitText: string)
    | ProcessTook(hoursText: string)
    | ProcessTimedOut
    | RunFailed
    | TestCaseTook(testCase: nat, timeText: string)
    | SizeMismatch(testCase: nat, retrievedSize: nat, expectedSize: nat)
    | ElementMismatch(testCase: nat, position: nat, retrieved: Json, expected: Json)
    | LineMismatch(testCase: nat, retrievedLine: string, expectedLine: string)
    | TestCasesFailed
    | ErrorText(text: string)

  /** The text appended for a reason. */
  function Message(r: Reason): string {
    if TestCaseOf(r).Some? then TestCasePrefix(r.testCase) + TestCaseDetail(r)
    else match r
    case NoFolder(q) => "No folder (" + q + ") was found. I am done."
    case NoProjectFile => "No 'pyproject.toml' file was found. I am done."
    case FolderTooLarge(size) =>
      "The total size of the folder is " + size
      + ", which is larger than expected. Please, reduce the size, it should only contain source code."
    case BuildFailed =>
      "Could not compile/install the Poetry project. Please, fix whatever issue you are having (see above)."
    case BuildOutput(output) => output
    case MemoryExceeded(usage, limit) =>
      "Process's memory usage:" + usage + "MB exceeds memory limit (" + limit + "MB); the process will be killed."
    case ProcessTook(hours) => "The process took " + hours + " hours."
    case ProcessTimedOut => "The process did not run in the expected time."
    case RunFailed => "A major problem happened when running the program!"
    case TestCasesFailed => "A major problem happened when running the test cases!"
    case ErrorText(text) => text
  }

  /** The number a reason about a test case starts with, if any. */
  function TestCaseOf(r: Reason): Option<nat> {
    if r.TestCaseTook? || r.SizeMismatch? || r.ElementMismatch? || r.LineMismatch? then Some(r.testCase)
    else None
  }

  /** The `Test case: <n>` that opens a message about test case `n`. */
  function TestCasePrefix(n: nat): string {
    "Test case: " + NatToString(n)
  }

  /** The number in a `Test case: <n>` prefix reads back as `n`, so reasons
      about different test cases never share their opening. */
  lemma TestCasePrefixNumber(n: nat)
    ensures |TestCasePrefix(n)| > 11
    ensures forall k :: 11 <= k < |TestCasePrefix(n)| ==> '0' <= TestCasePrefix(n)[k] <= '9'
    ensures DigitsValue(TestCasePrefix(n)[11..]) == n
  {
    assert TestCasePrefix(n)[11..] == NatToString(n);
    NatToStringRoundTrip(n);
  }

  /** What follows `Test case: <n>` in a reason about test case `n`. */
  function TestCaseDetail(r: Reason): string
    requires TestCaseOf(r).Some?
  {
    match r
    case TestCaseTook(_, time) => " took " + time + " seconds."
    case SizeMismatch(_, got, want) =>
      "; Retrieved size: " + NatToString(got) + "; Expected size: " + NatToString(want) + "."
    case ElementMismatch(_, p, got, want) =>
      "; Retrieved " + NatToString(p) + " not as expected; Retrieved: " + Str(got)
      + "; Expected: " + Str(want) + "."
    case LineMismatch(_, got, want) => "; Retrieved line: " + got + "; Expected line: " + want + "."
  }

  /** Every reason about a test case opens with `Test case: <n>`. */
  lemma TestCaseMessagePrefix(r: Reason)
    requires TestCaseOf(r).Some?
    ensures StartsWith(Message(r), TestCasePrefix(r.testCase))
  {
    var prefix := TestCasePrefix(r.testCase);
    assert Message(r) == prefix + TestCaseDetail(r);
    assert (prefix + TestCaseDetail(r))[..|prefix|] == prefix;
  }

  /** What a step of the pipeline does to a report: whether it writes
      `verdict = False`, and the reasons it appends, in order. */
  datatype Effect = Effect(fails: bool, reasons: seq<Reason>)

  /** No write at all. */
  const NO_EFFECT := Effect(false, [])

  /** One step after another. */
  function Then(a: Effect, b: Effect): (r: Effect)
    ensures r.fails <==> a.fails || b.fails
    ensures r.reasons == a.reasons + b.reasons
  {
    Effect(a.fails || b.fails, a.reasons + b.reasons)
  }

  /** A finished report as it is serialised. */
  datatype ReportValue = ReportValue(question: string, verdict: bool, reasons: seq<Reason>)

  /** `json_to_report`. The verdict is absent until a step writes False or
      the final default writes True. */
  class Report {
    const question: string
    var verdict: Option<bool>
    var reasons: seq<Reason>

    /** `{'question': question_name, 'reasons': []}` */
    constructor (question: string)
      ensures this.question == question && verdict == None && reasons == []
    {
      this.question := question;
      verdict := None;
      reasons := [];
    }

    /** Performs a step's writes. */
    method Apply(e: Effect)
      modifies this
      ensures reasons == old(reasons) + e.reasons
      ensures verdict == if e.fails then Some(false) else old(verdict)
    {
      if e.fails {
        verdict := Some(false);
      }
      reasons := reasons + e.reasons;
    }

    /** `if 'verdict' not in json_to_report: json_to_report['verdict'] = True` */
    method Finish()
      modifies this`verdict
      ensures verdict == if old(verdict) == None then Some(true) else old(verdict)
    {
      if verdict == None {
        verdict := Some(true);
      }
    }

    /** The report once finished. */
    function Value(): ReportValue
      reads this
      requires verdict.Some?
    {
      ReportValue(question, verdict.value, reasons)
    }
  }
}
