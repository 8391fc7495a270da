# Grading software core, modelled in Dafny

The grading software (`GradingSoftware.py`) grades each student submission to
one question of a graph-database course. It resolves `$`-references in the
question's JSON configuration. Then, for every submission folder, it creates a
report `{question, verdict, reasons}` and runs a fixed sequence of steps:

- locate the question's folder;
- check for `pyproject.toml`;
- check the folder's size;
- build with Poetry;
- run the entry point under time and memory limits;
- run the configured test cases: a Neo4j result set, a file of JSON lines, or
  one line of a text file.

Every step that fails writes `verdict = False` and appends a reason. At the
end a report with no verdict gets `True`.

This project models the deterministic core of that flow:

- `strings.dfy` (`Strings`): the Python string operations used: `startswith`,
  substring `in`, `replace(c, '')`, `split`, `join`, `str` of an integer.
- `json.dfy` (`Json`): JSON values as Python holds them, Python's `==` on them
  (`PyEq`: `True == 1`, dict key order ignored), and `str`/`repr`.
- `config_resolve.dfy`, `config_examples.dfy` (`ConfigResolve`,
  `ConfigExamples`): `replace_dollar_sign_values`. Python dicts and lists are
  shared mutable objects, so the configuration is a heap of containers. The
  loaded document is a tree (`WellFormed`: no container is held by two
  slots), as `json.load` builds it. The traversal threads the partially
  rewritten heap from key to key, and a lookup sees every rewrite made before
  it, through aliases too. Which slots are visited, and what they held, is
  read from the document as loaded. A TypeError on the way (indexing a list,
  a str, an int, a bool or `None` by a string) crashes the run; the model
  returns `Crashed`.
- `resolve_order.dfy` (`ResolveOrder`): why reading the visited slots from
  the loaded document is faithful. The walk equals resolving the document's
  placeholder slots one after another in visit order. In a tree no slot
  occurs twice in that order, and each resolution writes only its own slot.
  So a slot still holds its placeholder when its turn comes, and the value it
  gets then is the value it holds at the end.
- `report.dfy` (`Reports`): the reasons and their exact texts, the effect of a
  step on a report, and the `Report` class whose `verdict` and `reasons` the
  steps update in place.
- `test_cases.dfy` (`TestCases`): the following, each proved against its own
  specification function:
  - `check_retrieved_expected`;
  - the `ReadLine` branch, with Python's negative indexing;
  - the `ReadJSONLines` parse loop;
  - one iteration of the test-case loop with its `except`;
  - the whole loop.
- `entry_point.dfy` (`EntryPoint`): the script path built from the
  `entry-point` of `pyproject.toml`, POSIX `os.path.join`, and the argument
  vector.
- `grading.dfy` (`Grading`): the per-submission flow. It covers the early
  checks in their order, build, memory monitor, run, test cases and the final
  default, and then the loop over submission folders.

The outside world is an input: what the file system, the Poetry tool, the
running process, the memory monitor, Neo4j and `json.loads` produced.
Exceptions it raised are given by their `str()`. Float values the source
prints (folder size in KB, hours, minutes, megabytes) are carried as their
printed text. The folder size is compared as a real number (bytes / 1024).

Some behaviours of the source worth knowing:

- Folders whose name starts with `_` never get an entry in the output. No
  "skipped" entry is written for them.
- `ReadJSONLines` parses every line the file splits into, empty lines
  included, and the first line that does not parse fails the whole test
  case through the caught exception.
- A test case of any other `type` does nothing at all.
- A `Neo4jResultSet` test reports its time only when the test case has a
  `file` key. The query itself is taken from `query` whenever that key is
  present, even when `file` is present too. The time is computed in minutes
  but labelled "seconds".
- A timed-out or crashed run does not stop the test cases; they still run and
  report.
- A `ReadLine` test whose line is missing, or whose expected value is not a
  string, does not report a mismatch line. Building that line raises a
  `TypeError`, which is caught and reported.

## Model

| member | source | states |
|---|---|---|
| Strings.ContainsIff | GradingSoftware/gradingsoftware/edu/rit/gdb/grading/GradingSoftware.py:353 | The recursive substring test `elem in s` holds exactly when some window of `s` spells `elem` |
| Strings.RemoveAll | GradingSoftware/gradingsoftware/edu/rit/gdb/grading/GradingSoftware.py:346 | `replace('$', '')` leaves no `$`, shortens the string by the number of `$`, and keeps every other character |
| Strings.Split | GradingSoftware/gradingsoftware/edu/rit/gdb/grading/GradingSoftware.py:346 | `split(sep)` gives one more piece than there are separators, and no piece contains the separator |
| Strings.JoinSplit | GradingSoftware/gradingsoftware/edu/rit/gdb/grading/GradingSoftware.py:346 | Joining the pieces of a split with the separator gives back the string |
| Strings.SplitJoin | GradingSoftware/gradingsoftware/edu/rit/gdb/grading/GradingSoftware.py:346 | Splitting a join of separator-free pieces gives back the pieces |
| Strings.NatToStringRoundTrip | GradingSoftware/gradingsoftware/edu/rit/gdb/grading/GradingSoftware.py:238-239 | `str(n)` of a count reads back as `n`, so different sizes and positions print differently |
| Json.PyEqRefl | GradingSoftware/gradingsoftware/edu/rit/gdb/grading/GradingSoftware.py:242 | Every JSON value equals itself under Python's `==` |
| Json.PyEqLooserThanIdentity | GradingSoftware/gradingsoftware/edu/rit/gdb/grading/GradingSoftware.py:242 | `==` is looser than identity: `True == 1`, and dicts with the same items in another order are equal |
| ConfigResolve.PathOf | GradingSoftware/gradingsoftware/edu/rit/gdb/grading/GradingSoftware.py:346 | A reference's path has at least one segment |
| ConfigResolve.Navigate | GradingSoftware/gradingsoftware/edu/rit/gdb/grading/GradingSoftware.py:349-360 | The lookup loop. A value found by following a path is a scalar or a container of the heap |
| ConfigResolve.NavigateAppend | GradingSoftware/gradingsoftware/edu/rit/gdb/grading/GradingSoftware.py:351-360 | Following `p + q` from a place is following `q` from wherever `p` leads |
| ConfigResolve.ResolvePlaceholder | GradingSoftware/gradingsoftware/edu/rit/gdb/grading/GradingSoftware.py:362-364 | A placeholder is replaced only by a found value that is not `None` and lies in the heap |
| ConfigResolve.WalkDict | GradingSoftware/gradingsoftware/edu/rit/gdb/grading/GradingSoftware.py:344-366 | The key loop keeps the document's shape: same containers, same keys in the same order, lists untouched. A slot changes only if it held a placeholder, and then to a non-`None` value. A crash happens only if there is a placeholder |
| ConfigResolve.VisitEntry | GradingSoftware/gradingsoftware/edu/rit/gdb/grading/GradingSoftware.py:345-371 | One key's visit preserves the same invariant |
| ConfigResolve.WalkList | GradingSoftware/gradingsoftware/edu/rit/gdb/grading/GradingSoftware.py:368-371 | Visiting a list recurses only into its dict items and preserves the same invariant; strings and nested lists inside lists are never replaced |
| ConfigResolve.ReplaceDollarSignValues | GradingSoftware/gradingsoftware/edu/rit/gdb/grading/GradingSoftware.py:343-371 | Resolution adds and removes no key, changes no non-string scalar, and rewrites only placeholders, each to a non-`None` value; it crashes only on a document that has a placeholder |
| ConfigResolve.ResolveSlot | GradingSoftware/gradingsoftware/edu/rit/gdb/grading/GradingSoftware.py:345-364 | Resolving one placeholder slot against the current heap keeps the invariant: the slot gets a non-`None` value of the heap or keeps its placeholder; it crashes only when there is a placeholder |
| ConfigResolve.DottedPath | GradingSoftware/gradingsoftware/edu/rit/gdb/grading/GradingSoftware.py:346 | `"$" + ".".join(path)` with plain segments names exactly `path` |
| ConfigResolve.EveryDollarRemoved | GradingSoftware/gradingsoftware/edu/rit/gdb/grading/GradingSoftware.py:346 | Every `$` is stripped, not only the first: `"$a$.b"` names `a.b` |
| ConfigResolve.DottedReferenceVisited | GradingSoftware/gradingsoftware/edu/rit/gdb/grading/GradingSoftware.py:345-364 | A `"$a.b"` slot whose path leads in the current document to a non-`None` value now holds that value; no other slot of that dict and no other container changes. A missing segment or a `None` target leaves everything unchanged. A TypeError on the path crashes |
| ConfigResolve.NoPlaceholderUnchanged | GradingSoftware/gradingsoftware/edu/rit/gdb/grading/GradingSoftware.py:343-371 | A document without placeholders comes back unchanged |
| ResolveOrder.Below | GradingSoftware/gradingsoftware/edu/rit/gdb/grading/GradingSoftware.py:365-371 | The containers reachable from a container have ids from it onward |
| ResolveOrder.BelowDisjoint | GradingSoftware/gradingsoftware/edu/rit/gdb/grading/GradingSoftware.py:365-371 | In a tree, nothing is reachable through two different slots of one container |
| ResolveOrder.DictOrder | GradingSoftware/gradingsoftware/edu/rit/gdb/grading/GradingSoftware.py:344-371 | The visit order of a dict's keys from one key on lists only dict slots that hold a placeholder |
| ResolveOrder.DictOrderWithin | GradingSoftware/gradingsoftware/edu/rit/gdb/grading/GradingSoftware.py:344-371 | The walk of a dict from key `i` on visits only keys `i` onward of that dict and slots of containers below them |
| ResolveOrder.DictOrderDistinct | GradingSoftware/gradingsoftware/edu/rit/gdb/grading/GradingSoftware.py:344-371 | In a tree, the walk of a dict visits no slot twice |
| ResolveOrder.ListOrderDistinct | GradingSoftware/gradingsoftware/edu/rit/gdb/grading/GradingSoftware.py:368-371 | In a tree, the walk of a list's dict items visits no slot twice |
| ResolveOrder.RunSlots | GradingSoftware/gradingsoftware/edu/rit/gdb/grading/GradingSoftware.py:362-364 | Resolving slots one after another keeps the invariant of `Resolves` |
| ResolveOrder.RunAppend | GradingSoftware/gradingsoftware/edu/rit/gdb/grading/GradingSoftware.py:344-371 | Resolving `a + b` is resolving `a`, then `b` in the heap it left; a crash in `a` ends the run |
| ResolveOrder.RunFrame | GradingSoftware/gradingsoftware/edu/rit/gdb/grading/GradingSoftware.py:362-364 | A run writes no slot outside the slots it resolves |
| ResolveOrder.RunKeeps | GradingSoftware/gradingsoftware/edu/rit/gdb/grading/GradingSoftware.py:344-364 | In a run of distinct slots, a slot holds its original value at its turn, and keeps what its turn writes to the end |
| ResolveOrder.WalkDictRuns | GradingSoftware/gradingsoftware/edu/rit/gdb/grading/GradingSoftware.py:344-366 | The walk of a dict from key `i` on is the run of its visit order |
| ResolveOrder.VisitEntryRuns | GradingSoftware/gradingsoftware/edu/rit/gdb/grading/GradingSoftware.py:345-371 | One key's visit is the run of its visit order |
| ResolveOrder.WalkListRuns | GradingSoftware/gradingsoftware/edu/rit/gdb/grading/GradingSoftware.py:368-371 | The walk of a list is the run of its visit order |
| ResolveOrder.WalkDictFrame | GradingSoftware/gradingsoftware/edu/rit/gdb/grading/GradingSoftware.py:344-371 | The walk of a dict from key `i` on writes only keys `i` onward of that dict and slots of containers below them; it never writes a slot visited before it |
| ResolveOrder.WalkIsInOrder | GradingSoftware/gradingsoftware/edu/rit/gdb/grading/GradingSoftware.py:343-371 | The whole resolution resolves the document's placeholder slots one after another in visit order, and none twice |
| ResolveOrder.ResolvedAtItsTurn | GradingSoftware/gradingsoftware/edu/rit/gdb/grading/GradingSoftware.py:343-364 | Each visited placeholder slot still holds its placeholder at its turn; at the end it holds the non-`None` value its path names in the heap of that moment, or its placeholder when that value is missing or `None` |
| ResolveOrder.UnvisitedUnchanged | GradingSoftware/gradingsoftware/edu/rit/gdb/grading/GradingSoftware.py:343-371 | A slot that is not a visited placeholder is the same at the end |
| ConfigExamples.ReferenceFoundOrKept | GradingSoftware/gradingsoftware/edu/rit/gdb/grading/GradingSoftware.py:345-364 | `{"a": {"b": 5}, "x": "$a.b", "y": "$a.z"}` resolves to `x = 5`, with `y` kept as the placeholder |
| ConfigExamples.AliasSeesLaterRewrite | GradingSoftware/gradingsoftware/edu/rit/gdb/grading/GradingSoftware.py:343-371 | In `{"a": "$b", "b": {"c": "$d"}, "d": 7}`, `a` is bound to the dict `b` itself, so the later rewrite of `b.c` shows through `a.c`, which reads 7 |
| ConfigExamples.ForwardReferenceGetsPlaceholder | GradingSoftware/gradingsoftware/edu/rit/gdb/grading/GradingSoftware.py:344-364 | In `{"c": "$a", "a": "$b", "b": 1}`, `c` is visited first and receives the still unresolved string `"$b"` |
| Reports.TestCasePrefixNumber | GradingSoftware/gradingsoftware/edu/rit/gdb/grading/GradingSoftware.py:238-247 | The number after `Test case: ` is all digits and reads back as the test-case number |
| Reports.TestCaseMessagePrefix | GradingSoftware/gradingsoftware/edu/rit/gdb/grading/GradingSoftware.py:221-247 | Every message about a test case starts with `Test case: <n>` |
| Reports.Report.constructor | GradingSoftware/gradingsoftware/edu/rit/gdb/grading/GradingSoftware.py:57 | A new report has the question, no reasons and no verdict |
| Reports.Report.Apply | GradingSoftware/gradingsoftware/edu/rit/gdb/grading/GradingSoftware.py:320-323 | A step appends its reasons in order and can only write `False` to the verdict |
| Reports.Report.Finish | GradingSoftware/gradingsoftware/edu/rit/gdb/grading/GradingSoftware.py:325-327 | The verdict becomes `True` only if it is absent; a `False` stays |
| TestCases.MismatchesSound | GradingSoftware/gradingsoftware/edu/rit/gdb/grading/GradingSoftware.py:241-247 | Every position reason names test case `n`, is 1-based and within the common length, and carries the two differing values. The checks fail exactly when they write a reason |
| TestCases.MismatchesOrdered | GradingSoftware/gradingsoftware/edu/rit/gdb/grading/GradingSoftware.py:241-247 | Position reasons come in strictly increasing position order |
| TestCases.MismatchesComplete | GradingSoftware/gradingsoftware/edu/rit/gdb/grading/GradingSoftware.py:241-247 | Every differing common position is reported |
| TestCases.MismatchesCount | GradingSoftware/gradingsoftware/edu/rit/gdb/grading/GradingSoftware.py:241-247 | There are as many position reasons as differing positions |
| TestCases.MismatchesFail | GradingSoftware/gradingsoftware/edu/rit/gdb/grading/GradingSoftware.py:241-244 | The position checks write `False` exactly when some common position differs |
| TestCases.ComparisonCount | GradingSoftware/gradingsoftware/edu/rit/gdb/grading/GradingSoftware.py:222-247 | A comparison writes one line for a given time, one for a size difference, and one per differing common position. A size difference does not stop the positional checks |
| TestCases.ComparisonFails | GradingSoftware/gradingsoftware/edu/rit/gdb/grading/GradingSoftware.py:235-247 | A comparison writes `False` exactly when the sizes differ or some common position differs |
| TestCases.ComparisonReasons | GradingSoftware/gradingsoftware/edu/rit/gdb/grading/GradingSoftware.py:222-247 | The reasons come in order: the time line if a time is given, the size line if the sizes differ, then only position lines |
| TestCases.AgreeingNoEffect | GradingSoftware/gradingsoftware/edu/rit/gdb/grading/GradingSoftware.py:222-247 | Equal-length, element-wise equal sequences with no time append nothing and leave the verdict alone |
| TestCases.IdenticalNoEffect | GradingSoftware/gradingsoftware/edu/rit/gdb/grading/GradingSoftware.py:222-247 | Comparing a sequence with itself does nothing |
| TestCases.MissingRowReportsSize | GradingSoftware/gradingsoftware/edu/rit/gdb/grading/GradingSoftware.py:235-247 | Retrieving `[{"id": 1}]` where `[{"id": 1}, {"id": 2}]` is expected fails with exactly the size reason `Test case: 1; Retrieved size: 1; Expected size: 2.` |
| TestCases.CheckRetrievedExpected | GradingSoftware/gradingsoftware/edu/rit/gdb/grading/GradingSoftware.py:221-247 | The method appends exactly the comparison's reasons and sets the verdict to `False` exactly when the comparison fails |
| TestCases.CheckTookAndSize | GradingSoftware/gradingsoftware/edu/rit/gdb/grading/GradingSoftware.py:222-239 | The time line is appended when a time is given. The size line is appended, with `False`, exactly when the lengths differ |
| TestCases.CheckPosition | GradingSoftware/gradingsoftware/edu/rit/gdb/grading/GradingSoftware.py:241-247 | One common position appends its mismatch line, and writes `False`, exactly when the two values differ under Python's `==` |
| TestCases.SelectLine | GradingSoftware/gradingsoftware/edu/rit/gdb/grading/GradingSoftware.py:303-308 | With `line_no >= len(lines)` no line is selected. A line number from 0 up selects that line. A negative one counts from the end. One below `-len(lines)` raises `IndexError` |
| TestCases.SingleLinePasses | GradingSoftware/gradingsoftware/edu/rit/gdb/grading/GradingSoftware.py:314-318 | A `ReadLine` test changes nothing exactly when the selected line equals the expected string. Otherwise it writes `False` and at least one reason |
| TestCases.LineOutOfRangeFails | GradingSoftware/gradingsoftware/edu/rit/gdb/grading/GradingSoftware.py:307-323 | A line number at or past the end fails through the caught `TypeError` of concatenating `None`, with that error's text |
| TestCases.LastLineByNegativeIndex | GradingSoftware/gradingsoftware/edu/rit/gdb/grading/GradingSoftware.py:306-308 | Line `-1` reads the last line |
| TestCases.ReadLineTest | GradingSoftware/gradingsoftware/edu/rit/gdb/grading/GradingSoftware.py:302-323 | The branch's writes match what `SingleLineEffect` specifies, including the `False` written before the `TypeError` |
| TestCases.ParseAllExact | GradingSoftware/gradingsoftware/edu/rit/gdb/grading/GradingSoftware.py:294-296 | Parsing succeeds exactly when every line parses, giving one value per line in order. Otherwise the error is that of the first malformed line |
| TestCases.CollectJsonLines | GradingSoftware/gradingsoftware/edu/rit/gdb/grading/GradingSoftware.py:293-296 | The loop collects exactly `ParseAll`'s result |
| TestCases.FirstMalformed | GradingSoftware/gradingsoftware/edu/rit/gdb/grading/GradingSoftware.py:295-296 | Parsing stops at the first malformed line and reports its error |
| TestCases.TestCaseExplained | GradingSoftware/gradingsoftware/edu/rit/gdb/grading/GradingSoftware.py:250-323 | A failing test case always leaves a reason. A test case of unknown type does nothing. A result-set test reports its time first exactly when the test case has a `file` key |
| TestCases.InOrderFails | GradingSoftware/gradingsoftware/edu/rit/gdb/grading/GradingSoftware.py:250-323 | Steps run one after another write `False` exactly when one of them does; a later step never undoes an earlier `False` |
| TestCases.TestCasesUpToFail | GradingSoftware/gradingsoftware/edu/rit/gdb/grading/GradingSoftware.py:250-323 | The first `k` test cases write `False` exactly when one of them fails; an exception in one does not stop the next |
| TestCases.AllTestCasesFail | GradingSoftware/gradingsoftware/edu/rit/gdb/grading/GradingSoftware.py:250-323 | The test cases write `False` exactly when one of them fails |
| TestCases.RunTestCase | GradingSoftware/gradingsoftware/edu/rit/gdb/grading/GradingSoftware.py:251-323 | One iteration, `except` included, writes exactly that test case's effect |
| TestCases.RunTestCases | GradingSoftware/gradingsoftware/edu/rit/gdb/grading/GradingSoftware.py:250-323 | The loop appends every test case's reasons in order and writes `False` exactly when some test case fails |
| EntryPoint.ScriptSegmentsParts | GradingSoftware/gradingsoftware/edu/rit/gdb/grading/GradingSoftware.py:174-175 | The script pieces are the dotted parts of the module before `:`, one more than its dots, and only the last gets `.py` |
| EntryPoint.JoinFromPlain | GradingSoftware/gradingsoftware/edu/rit/gdb/grading/GradingSoftware.py:176 | `os.path.join` puts exactly one `/` before each plain piece |
| EntryPoint.PathJoinPlain | GradingSoftware/gradingsoftware/edu/rit/gdb/grading/GradingSoftware.py:176 | With plain pieces, `os.path.join` is `'/'.join`, and the path splits back into the pieces |
| EntryPoint.AbsoluteLastSegment | GradingSoftware/gradingsoftware/edu/rit/gdb/grading/GradingSoftware.py:176 | A last piece starting with `/` discards the path built before it |
| EntryPoint.ModuleBecomesPath | GradingSoftware/gradingsoftware/edu/rit/gdb/grading/GradingSoftware.py:174-176 | For any entry point `a.b.c:fn` with plain module parts, the script path is `a/b/c.py` and splits back into `a`, `b`, `c.py` |
| EntryPoint.BuildCommand | GradingSoftware/gradingsoftware/edu/rit/gdb/grading/GradingSoftware.py:176-178 | The argv has `4 + len(values)` entries: `<exec>poetry`, `run`, `python`, the script path, then the configured values in order |
| EntryPoint.BuildCommandIsArgv | GradingSoftware/gradingsoftware/edu/rit/gdb/grading/GradingSoftware.py:176-178 | What the loop builds is `Argv` |
| Grading.VerdictIffPasses | GradingSoftware/gradingsoftware/edu/rit/gdb/grading/GradingSoftware.py:57-327 | The verdict is `True` exactly when the submission passes. It passes when the folder is found and not over the size limit, no test case fails, and, for a Poetry project, `pyproject.toml` is there, the build succeeds, memory stays within the limit and the run finishes |
| Grading.FailureExplained | GradingSoftware/gradingsoftware/edu/rit/gdb/grading/GradingSoftware.py:57-327 | A `False` verdict always comes with at least one reason |
| Grading.TestCaseReasonsKept | GradingSoftware/gradingsoftware/edu/rit/gdb/grading/GradingSoftware.py:250-323 | Each test case's reasons appear as one consecutive block among the reasons of all test cases |
| Grading.MissingFolder | GradingSoftware/gradingsoftware/edu/rit/gdb/grading/GradingSoftware.py:67-72 | A missing folder yields verdict `False` and exactly the reason `No folder (<name>) was found. I am done.`; no further step runs |
| Grading.EarlyChecksInOrder | GradingSoftware/gradingsoftware/edu/rit/gdb/grading/GradingSoftware.py:74-91 | A missing `pyproject.toml` is the only reason, whatever the size. Otherwise a folder over `maxFolderSize` gives only the size reason. Either way the verdict is `False` |
| Grading.NoProjectOnlyTests | GradingSoftware/gradingsoftware/edu/rit/gdb/grading/GradingSoftware.py:93-219 | With `project_type` false nothing is built or run; only the test cases write reasons |
| Grading.TestsRunAfterFailedRun | GradingSoftware/gradingsoftware/edu/rit/gdb/grading/GradingSoftware.py:209-250 | A timed-out or crashed run gives `False`, and the test cases' reasons still follow the run's |
| Grading.GradeSubmission | GradingSoftware/gradingsoftware/edu/rit/gdb/grading/GradingSoftware.py:57-327 | The imperative flow produces a fresh report equal to `GradeSpec` |
| Grading.RunProcess | GradingSoftware/gradingsoftware/edu/rit/gdb/grading/GradingSoftware.py:186-219 | The run appends the memory monitor's kill line, then the run's time, its timeout line, or its crash lines. It writes `False` exactly when memory was exceeded or the run did not finish |
| Grading.OnlyUnskippedReported | GradingSoftware/gradingsoftware/edu/rit/gdb/grading/GradingSoftware.py:50-58 | The output has exactly the folder names that do not start with `_` |
| Grading.ReportsAreGraded | GradingSoftware/gradingsoftware/edu/rit/gdb/grading/GradingSoftware.py:50-58 | Each such folder's entry is its graded report |
| Grading.GradeAll | GradingSoftware/gradingsoftware/edu/rit/gdb/grading/GradingSoftware.py:50-91 | The folder loop builds exactly `GradeUpTo` over all folders |

## Left out

- Process supervision is not modelled: `psutil.Popen`, the `RepeatTimer` polling, `check_memory_usage` and `kill_recursive`. It is concurrent OS work; the outcome of the run and the monitor's kill are inputs.
- Grading.RunProcess: fixes one order of the memory monitor's lines and the run's lines, the monitor's first. In the source the monitor runs on its own thread. It kills the process before it writes `False` and its reason, so the main thread may append the run's lines first. On a timeout the monitor may still write after the `except` branch. The model does not capture the other orders.
- The Poetry build (`poetry lock`, `poetry install`) is an external tool; its outcome is an input. In the source the appended build output is a `bytes` value; here it is text.
- The source's exception handlers can themselves fail: `stdout` or `p` unbound in the build handler, `p` or `timer` unbound in the run's `finally`. These crash the program in the source and are not modelled.
- Neo4j is not modelled: connections, `.swap` files, `time.sleep`, `before_neo4j_queries`. A result-set test's rows, or the exception raised while getting them, are an input.
- `before_files` is not modelled. Writing those files is I/O outside the per-test `try`.
- The file system is not modelled: `find_folder`, the existence of `pyproject.toml`, the size of the folder's files. These come in as the `Folder` input.
- Library parsing is not modelled: loading the configuration JSON and the TOML file, and the final `json.dumps` with `decimal_default`. `json.loads` of a JSON line is the `parse` parameter. The configuration settings the flow reads come in as `GradingConfig` (the resolved document is not converted into it).
- The text of floats is an input: folder size, hours, minutes, megabytes. `str(float)` is not modelled, and the JSON values here have no floats.
- The `print_output` and `print_retrieved` branches are left out. Both flags are constants fixed to `False`, so those branches never run.
- Neither `LabelPropagation.py` is modelled. Their work is Cypher text run by Neo4j.
- Missing configuration keys are not modelled. Examples are `tc['expected']`, `tc['line']`, `tc['file']`, `command['value']`, `json_config['name']` and `json_config['test_cases']`. These are always present here, with an `expected` list for result sets and JSON lines and an integer `line`.
- A `Neo4jResultSet` test with neither `query` nor `file` is not distinguished: in the source it reuses an earlier test's query, or raises. The outcome given for it stands for whichever happens.
- `repr` of a string is the string between single quotes. Python's `repr` also escapes backslashes, newlines and other non-printable characters, and it switches to double quotes when the string contains `'` but no `"`.
- ConfigResolve.ReplaceDollarSignValues: requires a top-level dict, as the loaded configuration is. A `null` document crashes in the source before its `None` check; a list or scalar document is not modelled. It also requires a tree, which every document `json.load` returns is.
- Grading.ReportsAreGraded: requires distinct folder names, which `os.listdir` guarantees. The order of `os.listdir` is the order of the input sequence.
- EntryPoint.ModuleBecomesPath: stated only for module parts that are non-empty and contain no `.`, `:` or `/`. `AbsoluteLastSegment` covers one other case: `os.path.join`'s reset on a piece that starts with `/`.
