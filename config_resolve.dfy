/** The substitution of `$`-references in the grading configuration
    (`replace_dollar_sign_values`, called once on the loaded document with the
    same dict as both "original" and "current").

    Python dicts and lists are mutable objects shared by reference, so the
    document is modelled as a heap: a sequence of containers, where a slot
    holds a scalar or a reference to another container. A replaced value that
    is a dict or a list is therefore shared with the place it was found, and
    the lookups of later keys see every rewrite made before them. */
module ConfigResolve {
  import opened Strings

  /** What a Python variable or container slot holds: a scalar, or a
      reference to a dict or list of the heap. */
  datatype Val = Null | Bool(b: bool) | Int(i: int) | Str(s: string) | Ref(id: nat)

  /** A dict (entries in insertion order, keys distinct as `json.load` makes
      them) or a list. */
  datatype Container = Dict(entries: seq<(string, Val)>) | List(items: seq<Val>)

  type Heap = seq<Container>

  /** The id of the document's top-level dict. */
  const ROOT: nat := 0

  /** Number of slots of a container. */
  function Width(c: Container): nat {
    if c.Dict? then |c.entries| else |c.items|
  }

  /** The value held in slot `i` of a container. */
  function Slot(c: Container, i: nat): Val
    requires i < Width(c)
  {
    if c.Dict? then c.entries[i].1 else c.items[i]
  }

  /** Every reference held in the heap names a container of the heap. */
  ghost predicate Closed(h: Heap) {
    forall d, i :: 0 <= d < |h| && 0 <= i < Width(h[d]) && Slot(h[d], i).Ref? ==> Slot(h[d], i).id < |h|
  }

  /** Every reference points to a container with a larger id: true of any
      tree once its containers are numbered parent before child, as the
      document `json.load` returns is. */
  ghost predicate Forward(h: Heap) {
    forall d, i :: 0 <= d < |h| && 0 <= i < Width(h[d]) && Slot(h[d], i).Ref? ==> d < Slot(h[d], i).id < |h|
  }

  /** No container is held by two slots, as in the tree `json.load` builds. */
  ghost predicate Unshared(h: Heap) {
    forall d1, i1, d2, i2 ::
      && 0 <= d1 < |h| && 0 <= i1 < Width(h[d1]) && 0 <= d2 < |h| && 0 <= i2 < Width(h[d2])
      && Slot(h[d1], i1).Ref? && Slot(h[d1], i1) == Slot(h[d2], i2)
      ==> d1 == d2 && i1 == i2
  }

  /** A loaded configuration: a tree whose top level is a dict. */
  ghost predicate WellFormed(doc: Heap) {
    |doc| > 0 && doc[ROOT].Dict? && Forward(doc) && Unshared(doc)
  }

  /** A string value that `replace_dollar_sign_values` treats as a reference. */
  predicate IsPlaceholder(v: Val) {
    v.Str? && StartsWith(v.s, "$")
  }

  /** The dotted path of a reference: every `$` is removed, not only the leading one. */
  function PathOf(s: string): (path: seq<string>)
    ensures |path| >= 1
  {
    Split(RemoveAll(s, '$'), '.')
  }

  /** Index of the entry with key `key`, or `|es|` when there is none. */
  function KeyIndex(es: seq<(string, Val)>, key: string): (k: nat)
    ensures k <= |es|
    ensures k < |es| ==> es[k].0 == key
    ensures forall j :: 0 <= j < k ==> es[j].0 != key
  {
    if es == [] then 0
    else if es[0].0 == key then 0
    else 1 + KeyIndex(es[1..], key)
  }

  /** Outcome of following a path: the value found, a missing segment (the
      loop gives up), or a Python TypeError, which ends the whole run. */
  datatype Lookup = Found(v: Val) | Missing | Raises

  /** The lookup loop: the test `elem not in to_search` is key membership on a
      dict, element membership on a list, a substring test on a str, and a
      TypeError on an int, bool or None; indexing a list or str by a str is a
      TypeError too. */
  function Navigate(h: Heap, at: Val, path: seq<string>): (r: Lookup)
    requires Closed(h)
    requires at.Ref? ==> at.id < |h|
    requires |path| >= 1
    ensures r.Found? && r.v.Ref? ==> r.v.id < |h|
    decreases |path|
  {
    var elem := path[0];
    match at
    case Ref(c) =>
      (match h[c]
       case Dict(es) =>
         var k := KeyIndex(es, elem);
         if k == |es| then Missing
         else
           assert es[k].1 == Slot(h[c], k);
           if |path| == 1 then Found(es[k].1) else Navigate(h, es[k].1, path[1..])
       case List(items) => if Str(elem) in items then Raises else Missing)
    case Str(s) => if Contains(s, elem) then Raises else Missing
    case _ => Raises
  }

  /** Following `p` and then `q` is following `p + q`. */
  lemma {:induction false} NavigateAppend(h: Heap, at: Val, p: seq<string>, q: seq<string>, w: Val)
    requires Closed(h) && (at.Ref? ==> at.id < |h|)
    requires |p| >= 1 && |q| >= 1
    requires Navigate(h, at, p) == Found(w)
    ensures Navigate(h, at, p + q) == Navigate(h, w, q)
    decreases |p|
  {
    var c := at.id;
    var es := h[c].entries;
    var k := KeyIndex(es, p[0]);
    assert (p + q)[0] == p[0];
    assert es[k].1 == Slot(h[c], k);
    if |p| == 1 {
      assert (p + q)[1..] == q;
    } else {
      NavigateAppend(h, es[k].1, p[1..], q, w);
      assert (p + q)[1..] == p[1..] + q;
    }
  }

  /** What happens to one placeholder. */
  datatype Resolution = Replace(v: Val) | Keep | Raise

  /** A found value replaces the placeholder unless it is None; a missing
      segment keeps the placeholder. */
  function ResolvePlaceholder(h: Heap, s: string): (r: Resolution)
    requires Closed(h) && |h| > 0
    ensures r.Replace? ==> r.v != Null && (r.v.Ref? ==> r.v.id < |h|)
  {
    match Navigate(h, Ref(ROOT), PathOf(s))
    case Found(v) => if v == Null then Keep else Replace(v)
    case Missing => Keep
    case Raises => Raise
  }

  /** Same containers of the same kinds, dict keys unchanged and in the same
      order, list items unchanged. */
  ghost predicate SameShape(orig: Heap, h: Heap) {
    && |h| == |orig|
    && forall d {:trigger h[d]} :: 0 <= d < |orig| ==>
         if orig[d].Dict? then
           && h[d].Dict?
           && |h[d].entries| == |orig[d].entries|
           && forall i {:trigger h[d].entries[i]} :: 0 <= i < |orig[d].entries| ==> h[d].entries[i].0 == orig[d].entries[i].0
         else h[d] == orig[d]
  }

  /** `h` is `orig` with some placeholders replaced by non-None values, and
      nothing else changed. */
  ghost predicate Resolves(orig: Heap, h: Heap) {
    && SameShape(orig, h)
    && Closed(h)
    && forall d, i {:trigger h[d].entries[i]} :: 0 <= d < |orig| && orig[d].Dict? && 0 <= i < |orig[d].entries| ==>
         h[d].entries[i].1 == orig[d].entries[i].1
         || (IsPlaceholder(orig[d].entries[i].1) && h[d].entries[i].1 != Null)
  }

  /** Some dict slot of `doc` holds a placeholder. */
  ghost predicate HasPlaceholder(doc: Heap) {
    exists d, i :: 0 <= d < |doc| && doc[d].Dict? && 0 <= i < |doc[d].entries| && IsPlaceholder(doc[d].entries[i].1)
  }

  /** Outcome of the whole substitution: the rewritten heap, or a crash. */
  datatype Outcome = Done(heap: Heap) | Crashed

  /** The placeholder branch for slot `i` of dict `d`: the slot gets the value
      found in the current heap, keeps its placeholder, or the run crashes. */
  function ResolveSlot(orig: Heap, h: Heap, d: nat, i: nat): (r: Outcome)
    requires d < |orig| && orig[d].Dict? && i < |orig[d].entries| && IsPlaceholder(orig[d].entries[i].1)
    requires Resolves(orig, h)
    ensures r.Done? ==> Resolves(orig, r.heap)
    ensures r.Crashed? ==> HasPlaceholder(orig)
  {
    var (key, v) := orig[d].entries[i];
    match ResolvePlaceholder(h, v.s)
    case Replace(w) => WriteSlotResolves(orig, h, d, i, w); Done(h[d := Dict(h[d].entries[i := (key, w)])])
    case Keep => Done(h)
    case Raise => Crashed
  }

  /** Writing a non-None value of the heap into a placeholder slot keeps `Resolves`. */
  lemma WriteSlotResolves(orig: Heap, h: Heap, d: nat, i: nat, w: Val)
    requires d < |orig| && orig[d].Dict? && i < |orig[d].entries| && IsPlaceholder(orig[d].entries[i].1)
    requires Resolves(orig, h) && w != Null && (w.Ref? ==> w.id < |h|)
    ensures Resolves(orig, h[d := Dict(h[d].entries[i := (orig[d].entries[i].0, w)])])
  {
    var h' := h[d := Dict(h[d].entries[i := (orig[d].entries[i].0, w)])];
    forall x, m | 0 <= x < |h'| && 0 <= m < Width(h'[x]) && Slot(h'[x], m).Ref?
      ensures Slot(h'[x], m).id < |h'|
    {
      if x == d && m == i {
        assert Slot(h'[x], m) == w;
      } else {
        assert Slot(h'[x], m) == Slot(h[x], m);
      }
    }
  }

  /** The `for key in json_config_current` loop over dict `d`, from its `i`-th key on. */
  function WalkDict(orig: Heap, h: Heap, d: nat, i: nat): (r: Outcome)
    requires Forward(orig) && d < |orig| && orig[d].Dict? && i <= |orig[d].entries|
    requires Resolves(orig, h)
    ensures r.Done? ==> Resolves(orig, r.heap)
    ensures r.Crashed? ==> HasPlaceholder(orig)
    decreases |orig| - d, 1, |orig[d].entries| - i
  {
    if i == |orig[d].entries| then Done(h)
    else
      match VisitEntry(orig, h, d, i)
      case Crashed => Crashed
      case Done(h') => WalkDict(orig, h', d, i + 1)
  }

  /** One iteration of that loop: a placeholder is looked up in the current
      heap, a dict is recursed into, a list has its dict elements recursed into. */
  function VisitEntry(orig: Heap, h: Heap, d: nat, i: nat): (r: Outcome)
    requires Forward(orig) && d < |orig| && orig[d].Dict? && i < |orig[d].entries|
    requires Resolves(orig, h)
    ensures r.Done? ==> Resolves(orig, r.heap)
    ensures r.Crashed? ==> HasPlaceholder(orig)
    decreases |orig| - d, 0, 0
  {
    var v := orig[d].entries[i].1;
    assert v == Slot(orig[d], i);
    if IsPlaceholder(v) then ResolveSlot(orig, h, d, i)
    else if v.Ref? && orig[v.id].Dict? then WalkDict(orig, h, v.id, 0)
    else if v.Ref? then WalkList(orig, h, v.id, 0)
    else Done(h)
  }

  /** The `for elem in ...` loop over list `c` from its `j`-th item on: only
      dict items are recursed into; strings and nested lists are left alone. */
  function WalkList(orig: Heap, h: Heap, c: nat, j: nat): (r: Outcome)
    requires Forward(orig) && c < |orig| && orig[c].List? && j <= |orig[c].items|
    requires Resolves(orig, h)
    ensures r.Done? ==> Resolves(orig, r.heap)
    ensures r.Crashed? ==> HasPlaceholder(orig)
    decreases |orig| - c, 1, |orig[c].items| - j
  {
    if j == |orig[c].items| then Done(h)
    else
      var e := orig[c].items[j];
      assert e == Slot(orig[c], j);
      if e.Ref? && orig[e.id].Dict? then
        match WalkDict(orig, h, e.id, 0)
        case Crashed => Crashed
        case Done(h') => WalkList(orig, h', c, j + 1)
      else WalkList(orig, h, c, j + 1)
  }

  /** `replace_dollar_sign_values(doc, doc)`. */
  function ReplaceDollarSignValues(doc: Heap): (r: Outcome)
    requires WellFormed(doc)
    ensures r.Done? ==> Resolves(doc, r.heap)
    ensures r.Crashed? ==> HasPlaceholder(doc)
  {
    WalkDict(doc, doc, ROOT, 0)
  }

  /** A reference written `"$" + ".".join(path)`, with no `$` or `.` inside
      a segment, names exactly `path`. */
  lemma DottedPath(path: seq<string>)
    requires |path| >= 1
    requires forall k :: 0 <= k < |path| ==> '$' !in path[k] && '.' !in path[k]
    ensures PathOf("$" + Join(path, '.')) == path
  {
    var joined := Join(path, '.');
    JoinAvoids(path, '.', '$');
    RemoveAllAbsent(joined, '$');
    assert RemoveAll("$" + joined, '$') == RemoveAll(joined, '$') by {
      assert ("$" + joined)[1..] == joined;
    }
    SplitJoin(path, '.');
  }

  /** The quirk of `replace('$', '')`: a `$` inside the reference is dropped too. */
  lemma EveryDollarRemoved()
    ensures PathOf("$a$.b") == ["a", "b"]
  {
    assert RemoveAll("$a$.b", '$') == "a.b";
    assert Split("a.b", '.') == ["a", "b"] by {
      assert "b"[1..] == "" && ".b"[1..] == "b" && "a.b"[1..] == ".b";
      assert Split("", '.') == [""];
      assert Split("b", '.') == ["b"];
      assert Split(".b", '.') == ["", "b"];
      assert ['a'] + "" == "a" && ["", "b"][1..] == ["b"];
    }
  }

  /** Visiting a slot that holds `"$" + ".".join(path)`: when the path leads
      to a value other than None, the slot now holds that value (a dict or
      list is shared, not copied); when a segment is missing or the value is
      None, nothing changes; a TypeError on the way crashes the run. */
  lemma DottedReferenceVisited(orig: Heap, h: Heap, d: nat, i: nat, path: seq<string>)
    requires Forward(orig) && d < |orig| && orig[d].Dict? && i < |orig[d].entries|
    requires Resolves(orig, h) && |h| > 0
    requires |path| >= 1
    requires forall k :: 0 <= k < |path| ==> '$' !in path[k] && '.' !in path[k]
    requires orig[d].entries[i].1 == Str("$" + Join(path, '.'))
    ensures match Navigate(h, Ref(ROOT), path)
            case Found(w) =>
              if w == Null then VisitEntry(orig, h, d, i) == Done(h)
              else
                && VisitEntry(orig, h, d, i).Done?
                && var h' := VisitEntry(orig, h, d, i).heap;
                && h'[d].entries[i].1 == w
                && (forall m :: 0 <= m < |h[d].entries| && m != i ==> h'[d].entries[m] == h[d].entries[m])
                && forall x :: 0 <= x < |h| && x != d ==> h'[x] == h[x]
            case Missing => VisitEntry(orig, h, d, i) == Done(h)
            case Raises => VisitEntry(orig, h, d, i) == Crashed
  {
    DottedPath(path);
    assert StartsWith("$" + Join(path, '.'), "$");
  }

  /** A document without placeholders comes back unchanged. */
  lemma NoPlaceholderUnchanged(doc: Heap)
    requires WellFormed(doc)
    requires !HasPlaceholder(doc)
    ensures ReplaceDollarSignValues(doc) == Done(doc)
  {
    var h := ReplaceDollarSignValues(doc).heap;
    forall d | 0 <= d < |doc| ensures h[d] == doc[d] {
      if doc[d].Dict? {
        assert h[d].entries == doc[d].entries;
      }
    }
    assert h == doc;
  }
}
