/** The test-case loop of one submission: a database result set, a file of
    JSON lines or one line of a text file is compared with the expected value,
    and the outcome is written to the submission's report. What the outside
    world produced (rows returned by the database, the lines of a file, the
    message of an exception raised while getting them) is an input. */
module TestCases {
  import opened Wrappers
  import opened Strings
  import opened Json
  import opened Reports

  /** A configured test case, by its `type`. Any other `type` is `Unknown`. */
  datatype TestCase =
    | ResultSet(fromFile: bool, expected: seq<Json>)    // `Neo4jResultSet`; `fromFile`: the key `file` is present
    | JsonLines(expected: seq<Json>)                    // `ReadJSONLines`
    | SingleLine(lineNo: int, expectedLine: Json)       // `ReadLine`
    | Unknown

  /** What running a test case observed: an exception with its `str()`, the
      rows of a query with the elapsed minutes as printed, or a file's lines. */
  datatype Observation =
    | Raised(message: string)
    | Rows(rows: seq<Json>, minutesText: string)
    | Text(lines: seq<string>)

  /** The observation is of the kind the test case reads. */
  predicate Fits(tc: TestCase, ob: Observation) {
    match tc
    case ResultSet(_, _) => ob.Raised? || ob.Rows?
    case JsonLines(_) => ob.Raised? || ob.Text?
    case SingleLine(_, _) => ob.Raised? || ob.Text?
    case Unknown => true
  }

  /** The `except` of the test-case loop: `verdict = False`, then the fixed
      message and the exception's text. */
  function Caught(message: string): Effect {
    Effect(true, [TestCasesFailed, ErrorText(message)])
  }

  function Min(a: nat, b: nat): nat {
    if a <= b then a else b
  }

  // ---------------------------------------------------------------------
  // check_retrieved_expected

  /** The time line, written only when a time is given. */
  function TookEffect(n: nat, took: Option<string>): Effect {
    if took.Some? then Effect(false, [TestCaseTook(n, took.value)]) else NO_EFFECT
  }

  /** The size check. */
  function SizeEffect(n: nat, r: seq<Json>, e: seq<Json>): Effect {
    if |r| != |e| then Effect(true, [SizeMismatch(n, |r|, |e|)]) else NO_EFFECT
  }

  /** The check of position `j` (reported 1-based). */
  function ElementCheck(n: nat, r: seq<Json>, e: seq<Json>, j: nat): Effect
    requires j < |r| && j < |e|
  {
    if PyEq(r[j], e[j]) then NO_EFFECT else Effect(true, [ElementMismatch(n, j + 1, r[j], e[j])])
  }

  /** The checks of the first `upto` positions, in order. */
  function Mismatches(n: nat, r: seq<Json>, e: seq<Json>, upto: nat): Effect
    requires upto <= |r| && upto <= |e|
  {
    if upto == 0 then NO_EFFECT
    else Then(Mismatches(n, r, e, upto - 1), ElementCheck(n, r, e, upto - 1))
  }

  /** What comparing `r` (retrieved) with `e` (expected) for test case `n` does:
      the time, the size check, then every common position. */
  function Comparison(n: nat, r: seq<Json>, e: seq<Json>, took: Option<string>): Effect {
    Then(Then(TookEffect(n, took), SizeEffect(n, r, e)), Mismatches(n, r, e, Min(|r|, |e|)))
  }

  /** `x` reports, for test case `n`, a position where `r` and `e` differ,
      carrying the two values found there. */
  predicate IsMismatchAt(x: Reason, n: nat, r: seq<Json>, e: seq<Json>) {
    && x.ElementMismatch?
    && x.testCase == n
    && 1 <= x.position <= |r|
    && x.position <= |e|
    && x.retrieved == r[x.position - 1]
    && x.expected == e[x.position - 1]
    && !PyEq(x.retrieved, x.expected)
  }

  /** The positions below `upto` where the sequences differ. */
  function MismatchPositions(r: seq<Json>, e: seq<Json>, upto: nat): set<nat>
    requires upto <= |r| && upto <= |e|
  {
    set j: nat | j < upto && !PyEq(r[j], e[j])
  }

  /** Every reason the position checks write reports a differing position
      within range, 1-based, and they fail exactly when they write one. */
  lemma {:induction false} MismatchesSound(n: nat, r: seq<Json>, e: seq<Json>, upto: nat)
    requires upto <= |r| && upto <= |e|
    ensures var m := Mismatches(n, r, e, upto);
      && (forall k :: 0 <= k < |m.reasons| ==> IsMismatchAt(m.reasons[k], n, r, e) && m.reasons[k].position <= upto)
      && (m.fails <==> |m.reasons| > 0)
  {
    if upto > 0 {
      MismatchesSound(n, r, e, upto - 1);
      var prev := Mismatches(n, r, e, upto - 1);
      var m := Mismatches(n, r, e, upto);
      if PyEq(r[upto - 1], e[upto - 1]) {
        assert m == prev;
      } else {
        var x := ElementMismatch(n, upto, r[upto - 1], e[upto - 1]);
        assert m.reasons == prev.reasons + [x];
        assert IsMismatchAt(x, n, r, e);
        forall k | 0 <= k < |m.reasons|
          ensures IsMismatchAt(m.reasons[k], n, r, e) && m.reasons[k].position <= upto
        {
          if k < |prev.reasons| {
            assert m.reasons[k] == prev.reasons[k];
          }
        }
      }
    }
  }

  /** The positions are reported in increasing order. */
  lemma {:induction false} MismatchesOrdered(n: nat, r: seq<Json>, e: seq<Json>, upto: nat)
    requires upto <= |r| && upto <= |e|
    ensures var m := Mismatches(n, r, e, upto);
      forall k, l :: 0 <= k < l < |m.reasons| ==>
        m.reasons[k].ElementMismatch? && m.reasons[l].ElementMismatch?
        && m.reasons[k].position < m.reasons[l].position
  {
    if upto > 0 {
      MismatchesOrdered(n, r, e, upto - 1);
      MismatchesSound(n, r, e, upto - 1);
      var prev := Mismatches(n, r, e, upto - 1).reasons;
      var m := Mismatches(n, r, e, upto).reasons;
      if !PyEq(r[upto - 1], e[upto - 1]) {
        assert m == prev + [ElementMismatch(n, upto, r[upto - 1], e[upto - 1])];
        forall k, l | 0 <= k < l < |m|
          ensures m[k].ElementMismatch? && m[l].ElementMismatch? && m[k].position < m[l].position
        {
          if l == |prev| {
            assert m[k] == prev[k];
            assert prev[k].position <= upto - 1;
          } else {
            assert m[k] == prev[k] && m[l] == prev[l];
          }
        }
      }
    }
  }

  /** Some reason in `rs` reports position `p`. */
  predicate ReportsPosition(rs: seq<Reason>, p: nat) {
    exists k :: 0 <= k < |rs| && rs[k].ElementMismatch? && rs[k].position == p
  }

  /** Every differing position is reported. */
  lemma {:induction false} MismatchesComplete(n: nat, r: seq<Json>, e: seq<Json>, upto: nat)
    requires upto <= |r| && upto <= |e|
    ensures forall j :: 0 <= j < upto && !PyEq(r[j], e[j]) ==> ReportsPosition(Mismatches(n, r, e, upto).reasons, j + 1)
  {
    if upto > 0 {
      MismatchesComplete(n, r, e, upto - 1);
      var prev := Mismatches(n, r, e, upto - 1).reasons;
      var m := Mismatches(n, r, e, upto).reasons;
      assert m[..|prev|] == prev;
      forall j | 0 <= j < upto && !PyEq(r[j], e[j])
        ensures ReportsPosition(m, j + 1)
      {
        if j < upto - 1 {
          var k :| 0 <= k < |prev| && prev[k].ElementMismatch? && prev[k].position == j + 1;
          assert m[k] == prev[k];
          assert 0 <= k < |m| && m[k].ElementMismatch? && m[k].position == j + 1;
        } else {
          assert m == prev + [ElementMismatch(n, upto, r[upto - 1], e[upto - 1])];
          assert m[|prev|].ElementMismatch? && m[|prev|].position == j + 1;
        }
      }
    }
  }

  /** One reason per differing position. */
  lemma {:induction false} MismatchesCount(n: nat, r: seq<Json>, e: seq<Json>, upto: nat)
    requires upto <= |r| && upto <= |e|
    ensures |Mismatches(n, r, e, upto).reasons| == |MismatchPositions(r, e, upto)|
  {
    if upto > 0 {
      MismatchesCount(n, r, e, upto - 1);
      var prev := MismatchPositions(r, e, upto - 1);
      if PyEq(r[upto - 1], e[upto - 1]) {
        assert MismatchPositions(r, e, upto) == prev;
      } else {
        assert MismatchPositions(r, e, upto) == prev + {upto - 1};
        assert upto - 1 !in prev;
      }
    }
  }

  /** The comparison writes one line for the time if given, one for a size
      difference, and one per differing common position; a size difference
      does not stop the positional checks. */
  lemma ComparisonCount(n: nat, r: seq<Json>, e: seq<Json>, took: Option<string>)
    ensures |Comparison(n, r, e, took).reasons|
            == (if took.Some? then 1 else 0) + (if |r| != |e| then 1 else 0)
               + |MismatchPositions(r, e, Min(|r|, |e|))|
  {
    MismatchesCount(n, r, e, Min(|r|, |e|));
  }

  /** The comparison fails exactly when the sizes differ or some common
      position differs under Python's `==`. */
  lemma ComparisonFails(n: nat, r: seq<Json>, e: seq<Json>, took: Option<string>)
    ensures Comparison(n, r, e, took).fails
            <==> |r| != |e| || exists j :: 0 <= j < Min(|r|, |e|) && !PyEq(r[j], e[j])
  {
    MismatchesFail(n, r, e, Min(|r|, |e|));
  }

  /** The position checks fail exactly when some checked position differs. */
  lemma {:induction false} MismatchesFail(n: nat, r: seq<Json>, e: seq<Json>, upto: nat)
    requires upto <= |r| && upto <= |e|
    ensures Mismatches(n, r, e, upto).fails <==> exists j :: 0 <= j < upto && !PyEq(r[j], e[j])
  {
    if upto > 0 {
      MismatchesFail(n, r, e, upto - 1);
      if exists j :: 0 <= j < upto && !PyEq(r[j], e[j]) {
        var j :| 0 <= j < upto && !PyEq(r[j], e[j]);
        if j < upto - 1 {
          assert Mismatches(n, r, e, upto - 1).fails;
        }
      }
    }
  }

  /** After the optional time line, the comparison's reasons are the size
      line if the sizes differ, followed by the mismatch lines. */
  lemma ComparisonReasons(n: nat, r: seq<Json>, e: seq<Json>, took: Option<string>)
    ensures var c := Comparison(n, r, e, took);
            var t := if took.Some? then 1 else 0;
            var s := if |r| != |e| then 1 else 0;
      && |c.reasons| >= t + s
      && (took.Some? ==> c.reasons[0] == TestCaseTook(n, took.value))
      && (|r| != |e| ==> c.reasons[t] == SizeMismatch(n, |r|, |e|))
      && (forall k :: t + s <= k < |c.reasons| ==> IsMismatchAt(c.reasons[k], n, r, e))
  {
    MismatchesSound(n, r, e, Min(|r|, |e|));
  }

  /** Sequences of equal length that agree everywhere under Python's `==`
      leave the report untouched when no time is given. */
  lemma AgreeingNoEffect(n: nat, r: seq<Json>, e: seq<Json>)
    requires |r| == |e|
    requires forall j :: 0 <= j < |r| ==> PyEq(r[j], e[j])
    ensures Comparison(n, r, e, None) == NO_EFFECT
  {
    MismatchesCount(n, r, e, |r|);
    assert MismatchPositions(r, e, |r|) == {};
    ComparisonFails(n, r, e, None);
  }

  /** In particular, comparing a sequence with itself does nothing. */
  lemma IdenticalNoEffect(n: nat, r: seq<Json>)
    ensures Comparison(n, r, r, None) == NO_EFFECT
  {
    forall j | 0 <= j < |r| ensures PyEq(r[j], r[j]) {
      PyEqRefl(r[j]);
    }
    AgreeingNoEffect(n, r, r);
  }

  /** One row `{"id": 1}` retrieved where `[{"id": 1}, {"id": 2}]` is expected:
      only the size line, and the verdict turns false. */
  lemma MissingRowReportsSize()
    ensures var row1 := JDict([("id", JInt(1))]);
            var row2 := JDict([("id", JInt(2))]);
            Comparison(1, [row1], [row1, row2], None) == Effect(true, [SizeMismatch(1, 1, 2)])
  {
    var row1 := JDict([("id", JInt(1))]);
    PyEqRefl(row1);
  }

  /** `check_retrieved_expected`: appends the time line, the size line and one
      line per differing position, setting `verdict` to false on each difference. */
  method CheckRetrievedExpected(report: Report, n: nat, r: seq<Json>, e: seq<Json>, took: Option<string>)
    modifies report
    ensures report.reasons == old(report.reasons) + Comparison(n, r, e, took).reasons
    ensures report.verdict == if Comparison(n, r, e, took).fails then Some(false) else old(report.verdict)
  {
    ghost var head := Then(TookEffect(n, took), SizeEffect(n, r, e));
    CheckTookAndSize(report, n, r, e, took);
    var j := 0;
    while j < Min(|r|, |e|)
      invariant j <= Min(|r|, |e|)
      invariant report.reasons == old(report.reasons) + (head.reasons + Mismatches(n, r, e, j).reasons)
      invariant report.verdict == if head.fails || Mismatches(n, r, e, j).fails then Some(false) else old(report.verdict)
    {
      ghost var before := Mismatches(n, r, e, j);
      CheckPosition(report, n, r, e, j);
      assert Mismatches(n, r, e, j + 1) == Then(before, ElementCheck(n, r, e, j));
      assert report.reasons == old(report.reasons) + (head.reasons + (before.reasons + ElementCheck(n, r, e, j).reasons));
      j := j + 1;
    }
  }

  /** The time line and the size check of `check_retrieved_expected`. */
  method CheckTookAndSize(report: Report, n: nat, r: seq<Json>, e: seq<Json>, took: Option<string>)
    modifies report
    ensures report.reasons == old(report.reasons) + Then(TookEffect(n, took), SizeEffect(n, r, e)).reasons
    ensures report.verdict
            == if Then(TookEffect(n, took), SizeEffect(n, r, e)).fails then Some(false) else old(report.verdict)
  {
    if took.Some? {
      report.reasons := report.reasons + [TestCaseTook(n, took.value)];
    }
    if |r| != |e| {
      report.verdict := Some(false);
      report.reasons := report.reasons + [SizeMismatch(n, |r|, |e|)];
    }
  }

  /** The check of one common position of `check_retrieved_expected`. */
  method CheckPosition(report: Report, n: nat, r: seq<Json>, e: seq<Json>, j: nat)
    requires j < |r| && j < |e|
    modifies report
    ensures report.reasons == old(report.reasons) + ElementCheck(n, r, e, j).reasons
    ensures report.verdict == if ElementCheck(n, r, e, j).fails then Some(false) else old(report.verdict)
  {
    if !PyEq(r[j], e[j]) {
      report.verdict := Some(false);
      report.reasons := report.reasons + [ElementMismatch(n, j + 1, r[j], e[j])];
    }
  }

  // ---------------------------------------------------------------------
  // ReadLine

  /** The line a `ReadLine` test reads: `lines[line_no]` when `line_no < len(lines)`
      (a negative index counts from the end, as in Python), nothing otherwise;
      an index below `-len(lines)` raises `IndexError`. */
  datatype Selection = Selected(line: string) | NoLine | IndexRaised

  function SelectLine(lines: seq<string>, lineNo: int): (s: Selection)
    ensures s.NoLine? <==> lineNo >= |lines|
    ensures s.IndexRaised? <==> lineNo < -|lines|
    ensures 0 <= lineNo < |lines| ==> s == Selected(lines[lineNo])
    ensures -|lines| <= lineNo < 0 ==> s == Selected(lines[|lines| + lineNo])
  {
    if lineNo >= |lines| then NoLine
    else if lineNo >= 0 then Selected(lines[lineNo])
    else if lineNo >= -|lines| then Selected(lines[|lines| + lineNo])
    else IndexRaised
  }

  /** `str()` of Python's `IndexError` for a list. */
  const INDEX_ERROR := "list index out of range"

  /** `str()` of the `TypeError` raised by `str + x` for `x` of another type. */
  function ConcatError(typeName: string): string {
    "can only concatenate str (not \"" + typeName + "\") to str"
  }

  /** What a `ReadLine` test does. A missing line, or an expected value that
      is not a string, fails while the mismatch message is being built, so
      the caught `TypeError` is reported instead of the mismatch line. */
  function SingleLineEffect(n: nat, lines: seq<string>, lineNo: int, expected: Json): Effect {
    match SelectLine(lines, lineNo)
    case IndexRaised => Caught(INDEX_ERROR)
    case NoLine => Caught(ConcatError("NoneType"))
    case Selected(line) =>
      if expected == JStr(line) then NO_EFFECT
      else if expected.JStr? then Effect(true, [LineMismatch(n, line, expected.s)])
      else Caught(ConcatError(TypeName(expected)))
  }

  /** A `ReadLine` test leaves the report alone exactly when the selected line
      equals the expected one, and otherwise fails with at least one reason. */
  lemma SingleLinePasses(n: nat, lines: seq<string>, lineNo: int, expected: Json)
    ensures var eff := SingleLineEffect(n, lines, lineNo, expected);
      && (eff == NO_EFFECT <==> expected.JStr? && SelectLine(lines, lineNo) == Selected(expected.s))
      && (eff != NO_EFFECT ==> eff.fails && |eff.reasons| >= 1)
  {
  }

  /** A line number at or past the end always fails, through the caught
      `TypeError` of concatenating `None`. */
  lemma LineOutOfRangeFails(n: nat, lines: seq<string>, lineNo: int, expected: Json)
    requires lineNo >= |lines|
    ensures SingleLineEffect(n, lines, lineNo, expected)
            == Effect(true, [TestCasesFailed, ErrorText(ConcatError("NoneType"))])
  {
  }

  /** Line `-1` is the last line, as Python indexes. */
  lemma LastLineByNegativeIndex(n: nat, lines: seq<string>)
    requires |lines| >= 1
    ensures SingleLineEffect(n, lines, -1, JStr(lines[|lines| - 1])) == NO_EFFECT
  {
  }

  /** The `ReadLine` branch: `verdict` is set to false first, then the
      mismatch line is appended, or the `TypeError` it raises is caught. */
  method ReadLineTest(report: Report, n: nat, lines: seq<string>, lineNo: int, expected: Json)
    modifies report
    ensures report.reasons == old(report.reasons) + SingleLineEffect(n, lines, lineNo, expected).reasons
    ensures report.verdict
            == if SingleLineEffect(n, lines, lineNo, expected).fails then Some(false) else old(report.verdict)
  {
    var selected := SelectLine(lines, lineNo);
    if selected.IndexRaised? {
      report.Apply(Caught(INDEX_ERROR));
    } else if selected.NoLine? || JStr(selected.line) != expected {
      report.verdict := Some(false);
      if selected.NoLine? {
        report.Apply(Caught(ConcatError("NoneType")));
      } else if !expected.JStr? {
        report.Apply(Caught(ConcatError(TypeName(expected))));
      } else {
        report.reasons := report.reasons + [LineMismatch(n, selected.line, expected.s)];
      }
    }
  }

  // ---------------------------------------------------------------------
  // ReadJSONLines

  /** `json.loads` of one line: a value, or the decoder's error message. */
  datatype Parsed = Value(value: Json) | Malformed(message: string)

  /** The values of all lines, or the message of the first line that does not parse. */
  datatype Collected = Collected(values: seq<Json>) | Failed(message: string)

  /** Parsing every line in order, stopping at the first failure. */
  function ParseAll(lines: seq<string>, parse: string -> Parsed): Collected {
    if lines == [] then Collected([])
    else match parse(lines[0])
      case Malformed(m) => Failed(m)
      case Value(v) =>
        match ParseAll(lines[1..], parse)
        case Failed(m) => Failed(m)
        case Collected(vs) => Collected([v] + vs)
  }

  /** `ParseAll` succeeds exactly when every line parses, with one value per
      line in order; otherwise it reports the first malformed line. Empty
      lines are parsed like any other. */
  lemma {:induction false} ParseAllExact(lines: seq<string>, parse: string -> Parsed)
    ensures ParseAll(lines, parse).Collected? <==> forall k :: 0 <= k < |lines| ==> parse(lines[k]).Value?
    ensures ParseAll(lines, parse).Collected? ==>
      && |ParseAll(lines, parse).values| == |lines|
      && forall k :: 0 <= k < |lines| ==> ParseAll(lines, parse).values[k] == parse(lines[k]).value
    ensures ParseAll(lines, parse).Failed? ==>
      exists k :: 0 <= k < |lines| && parse(lines[k]) == Malformed(ParseAll(lines, parse).message)
        && forall k' :: 0 <= k' < k ==> parse(lines[k']).Value?
  {
    if lines != [] {
      ParseAllExact(lines[1..], parse);
      var rest := ParseAll(lines[1..], parse);
      if parse(lines[0]).Value? && rest.Failed? {
        var k :| 0 <= k < |lines[1..]| && parse(lines[1..][k]) == Malformed(rest.message)
                 && forall k' :: 0 <= k' < k ==> parse(lines[1..][k']).Value?;
        assert parse(lines[k + 1]) == Malformed(rest.message);
        forall k' | 0 <= k' < k + 1 ensures parse(lines[k']).Value? {
          if k' > 0 {
            assert parse(lines[1..][k' - 1]).Value?;
          }
        }
      }
      if parse(lines[0]).Value? && rest.Collected? {
        forall k | 0 <= k < |lines| ensures parse(lines[k]).Value? {
          if k > 0 {
            assert lines[k] == lines[1..][k - 1];
          }
        }
      }
      if !parse(lines[0]).Value? {
        assert parse(lines[0]) == Malformed(ParseAll(lines, parse).message);
      }
    }
  }

  /** The `ReadJSONLines` loop: each line is parsed and appended in turn. */
  method CollectJsonLines(lines: seq<string>, parse: string -> Parsed) returns (c: Collected)
    ensures c == ParseAll(lines, parse)
  {
    ParseAllExact(lines, parse);
    var retrieved: seq<Json> := [];
    var i := 0;
    while i < |lines|
      invariant i <= |lines|
      invariant forall k :: 0 <= k < i ==> parse(lines[k]).Value?
      invariant retrieved == seq(i, k requires 0 <= k < i => parse(lines[k]).value)
    {
      var p := parse(lines[i]);
      if p.Malformed? {
        FirstMalformed(lines, parse, i);
        return Failed(p.message);
      }
      retrieved := retrieved + [p.value];
      i := i + 1;
    }
    return Collected(retrieved);
  }

  /** If line `i` is the first malformed one, `ParseAll` fails with its message. */
  lemma {:induction false} FirstMalformed(lines: seq<string>, parse: string -> Parsed, i: nat)
    requires i < |lines| && parse(lines[i]).Malformed?
    requires forall k :: 0 <= k < i ==> parse(lines[k]).Value?
    ensures ParseAll(lines, parse) == Failed(parse(lines[i]).message)
  {
    if i > 0 {
      assert parse(lines[0]).Value?;
      FirstMalformed(lines[1..], parse, i - 1);
    }
  }

  // ---------------------------------------------------------------------
  // One test case and the loop over all of them

  /** What test case number `n` (1-based) does to the report. */
  function TestCaseEffect(n: nat, tc: TestCase, ob: Observation, parse: string -> Parsed): Effect
    requires Fits(tc, ob)
  {
    if tc.Unknown? then NO_EFFECT
    else if ob.Raised? then Caught(ob.message)
    else match tc
      case ResultSet(fromFile, expected) => Comparison(n, ob.rows, expected, if fromFile then Some(ob.minutesText) else None)
      case JsonLines(expected) => JsonLinesEffect(n, ob.lines, expected, parse)
      case SingleLine(lineNo, expectedLine) => SingleLineEffect(n, ob.lines, lineNo, expectedLine)
  }

  /** A `ReadJSONLines` test whose file was read: a line that does not parse
      raises, and the exception is caught. */
  function JsonLinesEffect(n: nat, lines: seq<string>, expected: seq<Json>, parse: string -> Parsed): Effect {
    match ParseAll(lines, parse)
    case Failed(m) => Caught(m)
    case Collected(values) => Comparison(n, values, expected, None)
  }

  /** A failing test case always leaves a reason; a test case of unknown type
      does nothing; a result-set test reports its time only when the test
      case has a `file` key. */
  lemma TestCaseExplained(n: nat, tc: TestCase, ob: Observation, parse: string -> Parsed)
    requires Fits(tc, ob)
    ensures var eff := TestCaseEffect(n, tc, ob, parse);
      && (eff.fails ==> |eff.reasons| >= 1)
      && (tc.Unknown? ==> eff == NO_EFFECT)
      && (tc.ResultSet? && ob.Rows? ==>
            (tc.fromFile <==> |eff.reasons| >= 1 && eff.reasons[0] == TestCaseTook(n, ob.minutesText)))
  {
    if tc.ResultSet? && ob.Rows? {
      ComparisonReasons(n, ob.rows, tc.expected, if tc.fromFile then Some(ob.minutesText) else None);
      var c := Comparison(n, ob.rows, tc.expected, if tc.fromFile then Some(ob.minutesText) else None);
      if !tc.fromFile && |c.reasons| >= 1 {
        if |ob.rows| == |tc.expected| {
          assert IsMismatchAt(c.reasons[0], n, ob.rows, tc.expected);
        }
      }
      if c.fails {
        ComparisonFails(n, ob.rows, tc.expected, if tc.fromFile then Some(ob.minutesText) else None);
        if |ob.rows| == |tc.expected| {
          var j :| 0 <= j < Min(|ob.rows|, |tc.expected|) && !PyEq(ob.rows[j], tc.expected[j]);
          MismatchesSound(n, ob.rows, tc.expected, Min(|ob.rows|, |tc.expected|));
        }
      }
    }
    if tc.JsonLines? && ob.Text? && ParseAll(ob.lines, parse).Collected? {
      var values := ParseAll(ob.lines, parse).values;
      var c := Comparison(n, values, tc.expected, None);
      if c.fails {
        ComparisonFails(n, values, tc.expected, None);
        if |values| == |tc.expected| {
          var j :| 0 <= j < Min(|values|, |tc.expected|) && !PyEq(values[j], tc.expected[j]);
          MismatchesSound(n, values, tc.expected, Min(|values|, |tc.expected|));
        }
      }
    }
    if tc.SingleLine? && ob.Text? {
      SingleLinePasses(n, ob.lines, tc.lineNo, tc.expectedLine);
    }
  }

  /** Every test case fits its observation. */
  predicate AllFit(tcs: seq<TestCase>, obs: seq<Observation>) {
    |tcs| == |obs| && forall k :: 0 <= k < |tcs| ==> Fits(tcs[k], obs[k])
  }

  /** The first `upto` of `effs`, one after another. */
  function InOrder(effs: seq<Effect>, upto: nat): Effect
    requires upto <= |effs|
  {
    if upto == 0 then NO_EFFECT else Then(InOrder(effs, upto - 1), effs[upto - 1])
  }

  /** Steps run one after another write `False` exactly when one of them does. */
  lemma {:induction false} InOrderFails(effs: seq<Effect>, upto: nat)
    requires upto <= |effs|
    ensures InOrder(effs, upto).fails <==> exists k :: 0 <= k < upto && effs[k].fails
  {
    if upto > 0 {
      InOrderFails(effs, upto - 1);
      if effs[upto - 1].fails {
        assert 0 <= upto - 1 < upto && effs[upto - 1].fails;
      }
    }
  }

  /** The effect of each test case, numbered from 1. */
  function CaseEffects(tcs: seq<TestCase>, obs: seq<Observation>, parse: string -> Parsed): (effs: seq<Effect>)
    requires AllFit(tcs, obs)
    ensures |effs| == |tcs|
  {
    seq(|tcs|, k requires 0 <= k < |tcs| => TestCaseEffect(k + 1, tcs[k], obs[k], parse))
  }

  /** The first `upto` test cases in order, numbered from 1. */
  function TestCasesUpTo(tcs: seq<TestCase>, obs: seq<Observation>, parse: string -> Parsed, upto: nat): Effect
    requires AllFit(tcs, obs) && upto <= |tcs|
  {
    InOrder(CaseEffects(tcs, obs, parse), upto)
  }

  /** All the test cases. */
  function AllTestCases(tcs: seq<TestCase>, obs: seq<Observation>, parse: string -> Parsed): Effect
    requires AllFit(tcs, obs)
  {
    TestCasesUpTo(tcs, obs, parse, |tcs|)
  }

  /** Test case `k` (0-based) fails. */
  predicate CaseFails(tcs: seq<TestCase>, obs: seq<Observation>, parse: string -> Parsed, k: nat)
    requires AllFit(tcs, obs) && k < |tcs|
  {
    CaseEffects(tcs, obs, parse)[k].fails
  }

  /** The first `upto` test cases fail exactly when one of them fails; an
      exception in one test case does not stop the next. */
  lemma {:induction false} TestCasesUpToFail(tcs: seq<TestCase>, obs: seq<Observation>, parse: string -> Parsed, upto: nat)
    requires AllFit(tcs, obs) && upto <= |tcs|
    ensures TestCasesUpTo(tcs, obs, parse, upto).fails
            <==> exists k :: 0 <= k < upto && CaseFails(tcs, obs, parse, k)
  {
    var effs := CaseEffects(tcs, obs, parse);
    InOrderFails(effs, upto);
    if exists k :: 0 <= k < upto && effs[k].fails {
      var k :| 0 <= k < upto && effs[k].fails;
      assert CaseFails(tcs, obs, parse, k);
    }
  }

  /** The test cases fail exactly when one of them fails. */
  lemma AllTestCasesFail(tcs: seq<TestCase>, obs: seq<Observation>, parse: string -> Parsed)
    requires AllFit(tcs, obs)
    ensures AllTestCases(tcs, obs, parse).fails <==> exists k :: 0 <= k < |tcs| && CaseFails(tcs, obs, parse, k)
  {
    TestCasesUpToFail(tcs, obs, parse, |tcs|);
  }

  /** One iteration of the test-case loop, `try` and `except` included. */
  method RunTestCase(report: Report, n: nat, tc: TestCase, ob: Observation, parse: string -> Parsed)
    requires Fits(tc, ob)
    modifies report
    ensures report.reasons == old(report.reasons) + TestCaseEffect(n, tc, ob, parse).reasons
    ensures report.verdict
            == if TestCaseEffect(n, tc, ob, parse).fails then Some(false) else old(report.verdict)
  {
    if tc.Unknown? {
      return;
    }
    if ob.Raised? {
      report.Apply(Caught(ob.message));
      return;
    }
    match tc
    case ResultSet(fromFile, expected) =>
      CheckRetrievedExpected(report, n, ob.rows, expected, if fromFile then Some(ob.minutesText) else None);
    case JsonLines(expected) =>
      var collected := CollectJsonLines(ob.lines, parse);
      if collected.Failed? {
        report.Apply(Caught(collected.message));
      } else {
        CheckRetrievedExpected(report, n, collected.values, expected, None);
      }
    case SingleLine(lineNo, expectedLine) =>
      ReadLineTest(report, n, ob.lines, lineNo, expectedLine);
  }

  /** `for i, tc in enumerate(json_config['test_cases'])`. */
  method RunTestCases(report: Report, tcs: seq<TestCase>, obs: seq<Observation>, parse: string -> Parsed)
    requires AllFit(tcs, obs)
    modifies report
    ensures report.reasons == old(report.reasons) + AllTestCases(tcs, obs, parse).reasons
    ensures report.verdict
            == if AllTestCases(tcs, obs, parse).fails then Some(false) else old(report.verdict)
  {
    var i := 0;
    while i < |tcs|
      invariant i <= |tcs|
      invariant report.reasons == old(report.reasons) + TestCasesUpTo(tcs, obs, parse, i).reasons
      invariant report.verdict
                == if TestCasesUpTo(tcs, obs, parse, i).fails then Some(false) else old(report.verdict)
    {
      ghost var effs := CaseEffects(tcs, obs, parse);
      ghost var before := InOrder(effs, i);
      RunTestCase(report, i + 1, tcs[i], obs[i], parse);
      assert effs[i] == TestCaseEffect(i + 1, tcs[i], obs[i], parse);
      assert InOrder(effs, i + 1) == Then(before, effs[i]);
      assert report.reasons == old(report.reasons) + (before.reasons + effs[i].reasons);
      i := i + 1;
    }
  }
}
