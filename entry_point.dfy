/** How the submission's entry point is run: the `entry-point` script of
    `pyproject.toml` (`package.module:function`) becomes a path to a `.py`
    file, and the command line is `<exec>poetry run python <path>` followed by
    the configured values. */
module EntryPoint {
  import opened Strings

  /** `entry_point.split(':')[0].split('.')` with `.py` appended to the last piece. */
  function ScriptSegments(entry: string): (segs: seq<string>)
    ensures |segs| >= 1
  {
    var parts := Split(Split(entry, ':')[0], '.');
    parts[..|parts| - 1] + [parts[|parts| - 1] + ".py"]
  }

  /** One step of POSIX `os.path.join`: a piece starting with `/` replaces the
      path so far; otherwise a `/` is put between them unless the path is
      empty or already ends with one. */
  function JoinTwo(path: string, piece: string): string {
    if StartsWith(piece, "/") then piece
    else if path == [] || path[|path| - 1] == '/' then path + piece
    else path + "/" + piece
  }

  /** `os.path.join(path, *rest)` */
  function JoinFrom(path: string, rest: seq<string>): string
    decreases |rest|
  {
    if rest == [] then path else JoinFrom(JoinTwo(path, rest[0]), rest[1..])
  }

  /** `os.path.join(*segs)` */
  function PathJoin(segs: seq<string>): string
    requires |segs| >= 1
  {
    JoinFrom(segs[0], segs[1..])
  }

  /** `[python_exec + 'poetry', 'run', 'python', os.path.join(*path_to_script)]`
      followed by the configured values. */
  function Argv(exec: string, entry: string, values: seq<string>): seq<string> {
    [exec + "poetry", "run", "python", PathJoin(ScriptSegments(entry))] + values
  }

  /** A piece of a plain path: not empty and without `/`. */
  predicate PlainSegment(s: string) {
    s != [] && '/' !in s
  }

  /** The segments are the dotted parts of the module before `:`, and only
      the last one gets `.py`. */
  lemma ScriptSegmentsParts(entry: string)
    ensures var parts := Split(Split(entry, ':')[0], '.');
            var segs := ScriptSegments(entry);
      && |segs| == |parts|
      && |segs| == Count(Split(entry, ':')[0], '.') + 1
      && (forall k :: 0 <= k < |segs| - 1 ==> segs[k] == parts[k])
      && segs[|segs| - 1] == parts[|parts| - 1] + ".py"
  {
  }

  /** Joining plain pieces onto a path that does not end in `/` puts exactly
      one `/` before each piece. */
  lemma {:induction false} JoinFromPlain(path: string, rest: seq<string>)
    requires path != [] && path[|path| - 1] != '/'
    requires forall k :: 0 <= k < |rest| ==> PlainSegment(rest[k])
    ensures rest != [] ==> JoinFrom(path, rest) == path + "/" + Join(rest, '/')
    decreases |rest|
  {
    if rest != [] {
      var piece := rest[0];
      assert piece[0] != '/';
      assert !StartsWith(piece, "/");
      var next := path + "/" + piece;
      assert JoinTwo(path, piece) == next;
      assert next[|next| - 1] == piece[|piece| - 1];
      assert piece[|piece| - 1] in piece;
      JoinFromPlain(next, rest[1..]);
      if |rest| > 1 {
        assert Join(rest, '/') == piece + ['/'] + Join(rest[1..], '/');
      }
    }
  }

  /** With plain pieces `os.path.join` is `'/'.join`, so the path splits back
      into the pieces. */
  lemma PathJoinPlain(segs: seq<string>)
    requires |segs| >= 1
    requires forall k :: 0 <= k < |segs| ==> PlainSegment(segs[k])
    ensures PathJoin(segs) == Join(segs, '/')
    ensures Split(PathJoin(segs), '/') == segs
  {
    var first := segs[0];
    assert first[|first| - 1] in first;
    JoinFromPlain(first, segs[1..]);
    if |segs| > 1 {
      assert Join(segs, '/') == first + ['/'] + Join(segs[1..], '/');
    }
    SplitJoin(segs, '/');
  }

  /** A last piece starting with `/` discards everything before it. */
  lemma {:induction false} AbsoluteLastSegment(path: string, rest: seq<string>)
    requires |rest| >= 1 && StartsWith(rest[|rest| - 1], "/")
    ensures JoinFrom(path, rest) == rest[|rest| - 1]
    decreases |rest|
  {
    if |rest| > 1 {
      AbsoluteLastSegment(JoinTwo(path, rest[0]), rest[1..]);
    }
  }

  /** The segments in terms of the dotted parts of the module. */
  lemma SegmentsFromParts(entry: string, parts: seq<string>)
    requires Split(Split(entry, ':')[0], '.') == parts
    ensures ScriptSegments(entry) == parts[..|parts| - 1] + [parts[|parts| - 1] + ".py"]
  {
  }

  /** Appending `.py` to a plain piece keeps it plain. */
  lemma PyPiecePlain(piece: string)
    requires PlainSegment(piece)
    ensures PlainSegment(piece + ".py")
  {
    assert forall k :: 0 <= k < 3 ==> ".py"[k] != '/';
  }

  /** The module part of `<dotted>:fn` is `dotted` when it has no `:`, and its
      dotted pieces are `parts`. */
  lemma DottedParts(parts: seq<string>, fn: string)
    requires |parts| >= 1
    requires forall k :: 0 <= k < |parts| ==> '.' !in parts[k] && ':' !in parts[k]
    ensures Split(Split(Join(parts, '.') + [':'] + fn, ':')[0], '.') == parts
  {
    JoinAvoids(parts, '.', ':');
    SplitFirst(Join(parts, '.'), fn, ':');
    SplitJoin(parts, '.');
  }

  /** An entry point `a.b.c:fn` whose module parts are plain names (no `.`,
      `:` or `/`, not empty) runs `a/b/c.py`: the pieces of the path are the
      module parts with `.py` added to the last one. */
  lemma ModuleBecomesPath(parts: seq<string>, fn: string)
    requires |parts| >= 1
    requires forall k :: 0 <= k < |parts| ==> PlainSegment(parts[k]) && '.' !in parts[k] && ':' !in parts[k]
    ensures var segs := ScriptSegments(Join(parts, '.') + [':'] + fn);
      && segs == parts[..|parts| - 1] + [parts[|parts| - 1] + ".py"]
      && PathJoin(segs) == Join(segs, '/')
      && Split(PathJoin(segs), '/') == segs
  {
    DottedParts(parts, fn);
    SegmentsFromParts(Join(parts, '.') + [':'] + fn, parts);
    var segs := parts[..|parts| - 1] + [parts[|parts| - 1] + ".py"];
    PyPiecePlain(parts[|parts| - 1]);
    forall k | 0 <= k < |segs| ensures PlainSegment(segs[k]) {
      if k < |parts| - 1 {
        assert segs[k] == parts[k];
      }
    }
    PathJoinPlain(segs);
  }

  /** The command-building loop: the fixed prefix, then each configured value in order. */
  method BuildCommand(exec: string, entry: string, values: seq<string>) returns (toRun: seq<string>)
    ensures |toRun| == 4 + |values|
    ensures toRun[..4] == [exec + "poetry", "run", "python", PathJoin(ScriptSegments(entry))]
    ensures toRun[4..] == values
  {
    toRun := [exec + "poetry", "run", "python", PathJoin(ScriptSegments(entry))];
    var i := 0;
    while i < |values|
      invariant i <= |values|
      invariant |toRun| == 4 + i
      invariant toRun[..4] == [exec + "poetry", "run", "python", PathJoin(ScriptSegments(entry))]
      invariant toRun[4..] == values[..i]
    {
      toRun := toRun + [values[i]];
      i := i + 1;
    }
  }

  /** The loop builds `Argv`. */
  lemma BuildCommandIsArgv(exec: string, entry: string, values: seq<string>, toRun: seq<string>)
    requires |toRun| == 4 + |values|
    requires toRun[..4] == [exec + "poetry", "run", "python", PathJoin(ScriptSegments(entry))]
    requires toRun[4..] == values
    ensures toRun == Argv(exec, entry, values)
  {
    assert toRun == toRun[..4] + toRun[4..];
  }
}
