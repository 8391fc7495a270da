/** The order in which `replace_dollar_sign_values` resolves placeholders.

    The recursive walk of `ConfigResolve` is equal to a flat run: list the
    placeholder slots of the loaded document in the order the walk visits
    them, and resolve them one after another, each against the heap left by
    the ones before it. Each slot is in that list at most once, and a
    resolution writes only its own slot. So a slot still holds its
    placeholder when its turn comes, and the value it then receives is the
    value it holds in the finished document. */
module ResolveOrder {
  import opened ConfigResolve

  // ---------------------------------------------------------------------
  // The containers below a container

  /** The containers reachable from container `c`, `c` included. */
  ghost function Below(orig: Heap, c: nat): (s: set<nat>)
    requires Forward(orig) && c < |orig|
    ensures c in s
    ensures forall x :: x in s ==> c <= x < |orig|
    decreases |orig| - c, 1
  {
    {c} + BelowFrom(orig, c, 0)
  }

  /** The containers reachable through slot `k` of container `c` or a later one. */
  ghost function BelowFrom(orig: Heap, c: nat, k: nat): (s: set<nat>)
    requires Forward(orig) && c < |orig| && k <= Width(orig[c])
    ensures forall x :: x in s ==> c < x < |orig|
    decreases |orig| - c, 0, Width(orig[c]) - k
  {
    if k == Width(orig[c]) then {}
    else (if Slot(orig[c], k).Ref? then Below(orig, Slot(orig[c], k).id) else {}) + BelowFrom(orig, c, k + 1)
  }

  /** A container below slot `s` of `c` is below every earlier starting slot. */
  lemma {:induction false} BelowFromIncludes(orig: Heap, c: nat, k: nat, s: nat)
    requires Forward(orig) && c < |orig| && k <= s < Width(orig[c]) && Slot(orig[c], s).Ref?
    ensures Below(orig, Slot(orig[c], s).id) <= BelowFrom(orig, c, k)
    decreases s - k
  {
    if k < s {
      BelowFromIncludes(orig, c, k + 1, s);
    }
  }

  /** The slot through which a container of `BelowFrom(orig, c, k)` is reached. */
  lemma {:induction false} BelowFromWitness(orig: Heap, c: nat, k: nat, x: nat) returns (s: nat)
    requires Forward(orig) && c < |orig| && k <= Width(orig[c]) && x in BelowFrom(orig, c, k)
    ensures k <= s < Width(orig[c]) && Slot(orig[c], s).Ref? && x in Below(orig, Slot(orig[c], s).id)
    decreases Width(orig[c]) - k
  {
    if Slot(orig[c], k).Ref? && x in Below(orig, Slot(orig[c], k).id) {
      s := k;
    } else {
      s := BelowFromWitness(orig, c, k + 1, x);
    }
  }

  /** A container below `a`, other than `a`, is held by a slot of a container below `a`. */
  lemma {:induction false} ParentBelow(orig: Heap, a: nat, x: nat) returns (p: nat, s: nat)
    requires Forward(orig) && a < |orig| && x in Below(orig, a) && x != a
    ensures p in Below(orig, a) && s < Width(orig[p]) && Slot(orig[p], s) == Ref(x)
    decreases |orig| - a
  {
    var k := BelowFromWitness(orig, a, 0, x);
    var child := Slot(orig[a], k).id;
    BelowFromIncludes(orig, a, 0, k);
    if x == child {
      p, s := a, k;
    } else {
      p, s := ParentBelow(orig, child, x);
    }
  }

  /** In a tree, what lies below two different slots of one container is disjoint. */
  lemma {:induction false} BelowDisjoint(orig: Heap, c: nat, i: nat, k: nat, x: nat)
    requires Forward(orig) && Unshared(orig) && c < |orig|
    requires i < Width(orig[c]) && k < Width(orig[c]) && i != k
    requires Slot(orig[c], i).Ref? && Slot(orig[c], k).Ref?
    ensures !(x in Below(orig, Slot(orig[c], i).id) && x in Below(orig, Slot(orig[c], k).id))
    decreases x
  {
    var a, b := Slot(orig[c], i).id, Slot(orig[c], k).id;
    if x in Below(orig, a) && x in Below(orig, b) {
      if x == a && x == b {
      } else if x == a {
        var p, s := ParentBelow(orig, b, x);
      } else if x == b {
        var p, s := ParentBelow(orig, a, x);
      } else {
        var p1, s1 := ParentBelow(orig, a, x);
        var p2, s2 := ParentBelow(orig, b, x);
        assert Slot(orig[p1], s1) == Slot(orig[p2], s2);
        BelowDisjoint(orig, c, i, k, p1);
      }
    }
  }

  // ---------------------------------------------------------------------
  // The visit order

  /** A dict slot of `orig` that holds a placeholder. */
  ghost predicate PlaceholderSlot(orig: Heap, s: (nat, nat)) {
    s.0 < |orig| && orig[s.0].Dict? && s.1 < |orig[s.0].entries| && IsPlaceholder(orig[s.0].entries[s.1].1)
  }

  /** The placeholder slots `WalkDict(orig, _, d, i)` resolves, in visit order. */
  ghost function DictOrder(orig: Heap, d: nat, i: nat): (s: seq<(nat, nat)>)
    requires Forward(orig) && d < |orig| && orig[d].Dict? && i <= |orig[d].entries|
    ensures forall k :: 0 <= k < |s| ==> PlaceholderSlot(orig, s[k])
    decreases |orig| - d, 1, |orig[d].entries| - i
  {
    if i == |orig[d].entries| then []
    else EntryOrder(orig, d, i) + DictOrder(orig, d, i + 1)
  }

  /** The placeholder slots `VisitEntry(orig, _, d, i)` resolves, in visit order. */
  ghost function EntryOrder(orig: Heap, d: nat, i: nat): (s: seq<(nat, nat)>)
    requires Forward(orig) && d < |orig| && orig[d].Dict? && i < |orig[d].entries|
    ensures forall k :: 0 <= k < |s| ==> PlaceholderSlot(orig, s[k])
    decreases |orig| - d, 0, 0
  {
    var v := orig[d].entries[i].1;
    assert v == Slot(orig[d], i);
    if IsPlaceholder(v) then [(d, i)]
    else if v.Ref? && orig[v.id].Dict? then DictOrder(orig, v.id, 0)
    else if v.Ref? then ListOrder(orig, v.id, 0)
    else []
  }

  /** The placeholder slots `WalkList(orig, _, c, j)` resolves, in visit order. */
  ghost function ListOrder(orig: Heap, c: nat, j: nat): (s: seq<(nat, nat)>)
    requires Forward(orig) && c < |orig| && orig[c].List? && j <= |orig[c].items|
    ensures forall k :: 0 <= k < |s| ==> PlaceholderSlot(orig, s[k])
    decreases |orig| - c, 1, |orig[c].items| - j
  {
    if j == |orig[c].items| then []
    else
      var e := orig[c].items[j];
      assert e == Slot(orig[c], j);
      (if e.Ref? && orig[e.id].Dict? then DictOrder(orig, e.id, 0) else []) + ListOrder(orig, c, j + 1)
  }

  /** A container below one of `c`'s slots is below `c`. */
  lemma {:induction false} BelowStep(orig: Heap, c: nat, x: nat)
    requires Forward(orig) && c < |orig| && (x == c || x in BelowFrom(orig, c, 0))
    ensures x in Below(orig, c)
  {
  }

  /** The slots `DictOrder(orig, d, i)` lists are slots `i` onward of `d` or
      slots of containers below them. */
  lemma {:induction false} DictOrderWithin(orig: Heap, d: nat, i: nat)
    requires Forward(orig) && d < |orig| && orig[d].Dict? && i <= |orig[d].entries|
    ensures forall k :: 0 <= k < |DictOrder(orig, d, i)| ==>
              || (DictOrder(orig, d, i)[k].0 == d && i <= DictOrder(orig, d, i)[k].1)
              || DictOrder(orig, d, i)[k].0 in BelowFrom(orig, d, i)
    decreases |orig| - d, 1, |orig[d].entries| - i
  {
    if i < |orig[d].entries| {
      var s, a, b := DictOrder(orig, d, i), EntryOrder(orig, d, i), DictOrder(orig, d, i + 1);
      assert s == a + b;
      EntryOrderWithin(orig, d, i);
      DictOrderWithin(orig, d, i + 1);
      assert BelowFrom(orig, d, i + 1) <= BelowFrom(orig, d, i);
      if Slot(orig[d], i).Ref? {
        BelowFromIncludes(orig, d, i, i);
      }
      forall k | 0 <= k < |s| ensures (s[k].0 == d && i <= s[k].1) || s[k].0 in BelowFrom(orig, d, i) {
        if k < |a| {
          assert s[k] == a[k];
        } else {
          assert s[k] == b[k - |a|];
        }
      }
    }
  }

  /** The slots `EntryOrder(orig, d, i)` lists are slot `i` of `d` or slots of
      containers below it. */
  lemma {:induction false} EntryOrderWithin(orig: Heap, d: nat, i: nat)
    requires Forward(orig) && d < |orig| && orig[d].Dict? && i < |orig[d].entries|
    ensures forall k :: 0 <= k < |EntryOrder(orig, d, i)| ==>
              || EntryOrder(orig, d, i)[k] == (d, i)
              || (Slot(orig[d], i).Ref? && EntryOrder(orig, d, i)[k].0 in Below(orig, Slot(orig[d], i).id))
    decreases |orig| - d, 0, 0
  {
    var v := orig[d].entries[i].1;
    assert v == Slot(orig[d], i);
    var s := EntryOrder(orig, d, i);
    if IsPlaceholder(v) {
    } else if v.Ref? && orig[v.id].Dict? {
      assert s == DictOrder(orig, v.id, 0);
      DictOrderWithin(orig, v.id, 0);
      forall k | 0 <= k < |s| ensures s[k].0 in Below(orig, v.id) {
        BelowStep(orig, v.id, s[k].0);
      }
    } else if v.Ref? {
      assert s == ListOrder(orig, v.id, 0);
      ListOrderWithin(orig, v.id, 0);
      forall k | 0 <= k < |s| ensures s[k].0 in Below(orig, v.id) {
        BelowStep(orig, v.id, s[k].0);
      }
    }
  }

  /** The slots `ListOrder(orig, c, j)` lists are slots of containers below
      items `j` onward of `c`. */
  lemma {:induction false} ListOrderWithin(orig: Heap, c: nat, j: nat)
    requires Forward(orig) && c < |orig| && orig[c].List? && j <= |orig[c].items|
    ensures forall k :: 0 <= k < |ListOrder(orig, c, j)| ==> ListOrder(orig, c, j)[k].0 in BelowFrom(orig, c, j)
    decreases |orig| - c, 1, |orig[c].items| - j
  {
    if j < |orig[c].items| {
      var e := orig[c].items[j];
      assert e == Slot(orig[c], j);
      ListOrderWithin(orig, c, j + 1);
      var s, b := ListOrder(orig, c, j), ListOrder(orig, c, j + 1);
      assert BelowFrom(orig, c, j + 1) <= BelowFrom(orig, c, j);
      if e.Ref? && orig[e.id].Dict? {
        var a := DictOrder(orig, e.id, 0);
        assert s == a + b;
        DictOrderWithin(orig, e.id, 0);
        BelowFromIncludes(orig, c, j, j);
        forall k | 0 <= k < |s| ensures s[k].0 in BelowFrom(orig, c, j) {
          if k < |a| {
            assert s[k] == a[k];
            BelowStep(orig, e.id, a[k].0);
          } else {
            assert s[k] == b[k - |a|];
          }
        }
      } else {
        assert s == b;
      }
    }
  }

  /** The placeholder slots of the loaded document in the order
      `replace_dollar_sign_values` visits them. */
  ghost function PlaceholderOrder(doc: Heap): seq<(nat, nat)>
    requires WellFormed(doc)
  {
    DictOrder(doc, ROOT, 0)
  }

  // ---------------------------------------------------------------------
  // Resolving slots one after another

  /** Resolving the given placeholder slots one after another. */
  ghost function RunSlots(orig: Heap, h: Heap, slots: seq<(nat, nat)>): (r: Outcome)
    requires Resolves(orig, h)
    requires forall k :: 0 <= k < |slots| ==> PlaceholderSlot(orig, slots[k])
    ensures r.Done? ==> Resolves(orig, r.heap)
    decreases |slots|
  {
    if slots == [] then Done(h)
    else
      assert PlaceholderSlot(orig, slots[0]);
      assert forall k :: 0 <= k < |slots[1..]| ==> slots[1..][k] == slots[k + 1];
      match ResolveSlot(orig, h, slots[0].0, slots[0].1)
      case Crashed => Crashed
      case Done(h') => RunSlots(orig, h', slots[1..])
  }

  /** A run that finishes resolves its first slot, then runs the rest. */
  lemma {:induction false} RunHead(orig: Heap, h: Heap, slots: seq<(nat, nat)>)
    requires Resolves(orig, h) && slots != []
    requires forall k :: 0 <= k < |slots| ==> PlaceholderSlot(orig, slots[k])
    requires RunSlots(orig, h, slots).Done?
    ensures ResolveSlot(orig, h, slots[0].0, slots[0].1).Done?
    ensures forall k :: 0 <= k < |slots[1..]| ==> PlaceholderSlot(orig, slots[1..][k])
    ensures RunSlots(orig, ResolveSlot(orig, h, slots[0].0, slots[0].1).heap, slots[1..]) == RunSlots(orig, h, slots)
  {
    assert forall k :: 0 <= k < |slots[1..]| ==> slots[1..][k] == slots[k + 1];
  }

  /** Running `a + b` is running `a`, then `b` on what it left. */
  lemma {:induction false} RunAppend(orig: Heap, h: Heap, a: seq<(nat, nat)>, b: seq<(nat, nat)>)
    requires Resolves(orig, h)
    requires forall k :: 0 <= k < |a| ==> PlaceholderSlot(orig, a[k])
    requires forall k :: 0 <= k < |b| ==> PlaceholderSlot(orig, b[k])
    ensures forall k :: 0 <= k < |a + b| ==> PlaceholderSlot(orig, (a + b)[k])
    ensures RunSlots(orig, h, a + b)
            == match RunSlots(orig, h, a)
               case Crashed => Crashed
               case Done(h') => RunSlots(orig, h', b)
    decreases |a|
  {
    assert forall k :: 0 <= k < |a + b| ==> (a + b)[k] == if k < |a| then a[k] else b[k - |a|];
    if a == [] {
      assert a + b == b;
    } else {
      var ab := a + b;
      assert ab[0] == a[0] && ab[1..] == a[1..] + b;
      assert forall k :: 0 <= k < |a[1..]| ==> a[1..][k] == a[k + 1];
      match ResolveSlot(orig, h, a[0].0, a[0].1)
      case Crashed =>
      case Done(h') => RunAppend(orig, h', a[1..], b);
    }
  }

  /** A run writes only the slots it resolves. */
  lemma {:induction false} RunFrame(orig: Heap, h: Heap, slots: seq<(nat, nat)>, x: nat, m: nat)
    requires Resolves(orig, h)
    requires forall k :: 0 <= k < |slots| ==> PlaceholderSlot(orig, slots[k])
    requires RunSlots(orig, h, slots).Done?
    requires x < |orig| && orig[x].Dict? && m < |orig[x].entries| && (x, m) !in slots
    ensures RunSlots(orig, h, slots).heap[x].entries[m] == h[x].entries[m]
    decreases |slots|
  {
    if slots != [] {
      var h' := ResolveSlot(orig, h, slots[0].0, slots[0].1).heap;
      assert slots[0] != (x, m);
      assert h'[x].entries[m] == h[x].entries[m];
      assert (x, m) !in slots[1..];
      RunFrame(orig, h', slots[1..], x, m);
    }
  }

  /** No slot occurs twice. */
  ghost predicate Distinct(slots: seq<(nat, nat)>) {
    forall a, b :: 0 <= a < b < |slots| ==> slots[a] != slots[b]
  }

  /** In a run of distinct slots, slot `k` still holds its original value when
      its turn comes, and what its resolution writes is what it holds at the end. */
  lemma {:induction false} RunKeeps(orig: Heap, h: Heap, slots: seq<(nat, nat)>, k: nat)
    requires Resolves(orig, h)
    requires forall j :: 0 <= j < |slots| ==> PlaceholderSlot(orig, slots[j])
    requires Distinct(slots) && k < |slots|
    requires RunSlots(orig, h, slots).Done?
    ensures forall j :: 0 <= j < k ==> PlaceholderSlot(orig, slots[..k][j])
    ensures RunSlots(orig, h, slots[..k]).Done?
    ensures var before := RunSlots(orig, h, slots[..k]).heap;
            var (x, m) := slots[k];
            && before[x].entries[m] == h[x].entries[m]
            && ResolveSlot(orig, before, x, m).Done?
            && RunSlots(orig, h, slots).heap[x].entries[m] == ResolveSlot(orig, before, x, m).heap[x].entries[m]
  {
    OnlyAt(slots, k);
    RunSplit(orig, h, slots, k);
    var before := RunSlots(orig, h, slots[..k]).heap;
    RunFrame(orig, h, slots[..k], slots[k].0, slots[k].1);
    RunFirstKept(orig, before, slots[k..]);
  }

  /** A finished run is its first `k` steps, then the rest. */
  lemma {:induction false} RunSplit(orig: Heap, h: Heap, slots: seq<(nat, nat)>, k: nat)
    requires Resolves(orig, h)
    requires forall j :: 0 <= j < |slots| ==> PlaceholderSlot(orig, slots[j])
    requires k <= |slots| && RunSlots(orig, h, slots).Done?
    ensures forall j :: 0 <= j < k ==> PlaceholderSlot(orig, slots[..k][j])
    ensures forall j :: 0 <= j < |slots| - k ==> PlaceholderSlot(orig, slots[k..][j])
    ensures RunSlots(orig, h, slots[..k]).Done?
    ensures RunSlots(orig, RunSlots(orig, h, slots[..k]).heap, slots[k..]) == RunSlots(orig, h, slots)
  {
    assert slots == slots[..k] + slots[k..];
    assert forall j :: 0 <= j < k ==> slots[..k][j] == slots[j];
    assert forall j :: 0 <= j < |slots| - k ==> slots[k..][j] == slots[k + j];
    RunAppend(orig, h, slots[..k], slots[k..]);
  }

  /** When a run's first slot does not occur again, what that slot holds at
      the end is what the first step wrote. */
  lemma {:induction false} RunFirstKept(orig: Heap, h: Heap, slots: seq<(nat, nat)>)
    requires Resolves(orig, h) && slots != []
    requires forall j :: 0 <= j < |slots| ==> PlaceholderSlot(orig, slots[j])
    requires RunSlots(orig, h, slots).Done? && slots[0] !in slots[1..]
    ensures ResolveSlot(orig, h, slots[0].0, slots[0].1).Done?
    ensures RunSlots(orig, h, slots).heap[slots[0].0].entries[slots[0].1]
            == ResolveSlot(orig, h, slots[0].0, slots[0].1).heap[slots[0].0].entries[slots[0].1]
  {
    RunHead(orig, h, slots);
    RunFrame(orig, ResolveSlot(orig, h, slots[0].0, slots[0].1).heap, slots[1..], slots[0].0, slots[0].1);
  }

  /** In a sequence of distinct slots, slot `k` occurs neither before nor after `k`. */
  lemma {:induction false} OnlyAt(slots: seq<(nat, nat)>, k: nat)
    requires Distinct(slots) && k < |slots|
    ensures slots[k] !in slots[..k] && slots[k..][0] == slots[k] && slots[k] !in slots[k..][1..]
  {
    forall j | 0 <= j < k ensures slots[..k][j] != slots[k] {
      assert slots[..k][j] == slots[j];
    }
    forall j | 0 <= j < |slots[k..][1..]| ensures slots[k..][1..][j] != slots[k] {
      assert slots[k..][1..][j] == slots[k + 1 + j];
    }
  }

  // ---------------------------------------------------------------------
  // The walk is the run of its visit order

  lemma {:induction false} WalkDictRuns(orig: Heap, h: Heap, d: nat, i: nat)
    requires Forward(orig) && d < |orig| && orig[d].Dict? && i <= |orig[d].entries|
    requires Resolves(orig, h)
    ensures WalkDict(orig, h, d, i) == RunSlots(orig, h, DictOrder(orig, d, i))
    decreases |orig| - d, 1, |orig[d].entries| - i
  {
    if i < |orig[d].entries| {
      VisitEntryRuns(orig, h, d, i);
      RunAppend(orig, h, EntryOrder(orig, d, i), DictOrder(orig, d, i + 1));
      match VisitEntry(orig, h, d, i)
      case Crashed =>
      case Done(h') => WalkDictRuns(orig, h', d, i + 1);
    }
  }

  lemma {:induction false} VisitEntryRuns(orig: Heap, h: Heap, d: nat, i: nat)
    requires Forward(orig) && d < |orig| && orig[d].Dict? && i < |orig[d].entries|
    requires Resolves(orig, h)
    ensures VisitEntry(orig, h, d, i) == RunSlots(orig, h, EntryOrder(orig, d, i))
    decreases |orig| - d, 0, 0
  {
    var v := orig[d].entries[i].1;
    assert v == Slot(orig[d], i);
    if IsPlaceholder(v) {
      assert [(d, i)][1..] == [];
    } else if v.Ref? && orig[v.id].Dict? {
      WalkDictRuns(orig, h, v.id, 0);
    } else if v.Ref? {
      WalkListRuns(orig, h, v.id, 0);
    }
  }

  lemma {:induction false} WalkListRuns(orig: Heap, h: Heap, c: nat, j: nat)
    requires Forward(orig) && c < |orig| && orig[c].List? && j <= |orig[c].items|
    requires Resolves(orig, h)
    ensures WalkList(orig, h, c, j) == RunSlots(orig, h, ListOrder(orig, c, j))
    decreases |orig| - c, 1, |orig[c].items| - j, 1
  {
    if j < |orig[c].items| {
      var e := orig[c].items[j];
      assert e == Slot(orig[c], j);
      if e.Ref? && orig[e.id].Dict? {
        WalkListDictRuns(orig, h, c, j);
      } else {
        WalkListSkipRuns(orig, h, c, j);
      }
    }
  }

  /** The step of `WalkListRuns` at an item that is not a dict. */
  lemma {:induction false} WalkListSkipRuns(orig: Heap, h: Heap, c: nat, j: nat)
    requires Forward(orig) && c < |orig| && orig[c].List? && j < |orig[c].items|
    requires orig[c].items[j] == Slot(orig[c], j)
    requires !(orig[c].items[j].Ref? && orig[orig[c].items[j].id].Dict?)
    requires Resolves(orig, h)
    ensures WalkList(orig, h, c, j) == RunSlots(orig, h, ListOrder(orig, c, j))
    decreases |orig| - c, 1, |orig[c].items| - j, 0
  {
    assert ListOrder(orig, c, j) == ListOrder(orig, c, j + 1);
    WalkListRuns(orig, h, c, j + 1);
  }

  /** The step of `WalkListRuns` at an item that is a dict. */
  lemma {:induction false} WalkListDictRuns(orig: Heap, h: Heap, c: nat, j: nat)
    requires Forward(orig) && c < |orig| && orig[c].List? && j < |orig[c].items|
    requires orig[c].items[j] == Slot(orig[c], j) && orig[c].items[j].Ref? && orig[orig[c].items[j].id].Dict?
    requires Resolves(orig, h)
    ensures WalkList(orig, h, c, j) == RunSlots(orig, h, ListOrder(orig, c, j))
    decreases |orig| - c, 1, |orig[c].items| - j, 0
  {
    var e := orig[c].items[j];
    ListOrderAtDict(orig, c, j);
    WalkListAtDict(orig, h, c, j);
    WalkDictRuns(orig, h, e.id, 0);
    RunAppend(orig, h, DictOrder(orig, e.id, 0), ListOrder(orig, c, j + 1));
    if WalkDict(orig, h, e.id, 0).Done? {
      WalkListRuns(orig, WalkDict(orig, h, e.id, 0).heap, c, j + 1);
    }
  }

  /** `ListOrder` at an item that is a dict. */
  lemma {:induction false} ListOrderAtDict(orig: Heap, c: nat, j: nat)
    requires Forward(orig) && c < |orig| && orig[c].List? && j < |orig[c].items|
    requires orig[c].items[j] == Slot(orig[c], j) && orig[c].items[j].Ref? && orig[orig[c].items[j].id].Dict?
    ensures ListOrder(orig, c, j) == DictOrder(orig, orig[c].items[j].id, 0) + ListOrder(orig, c, j + 1)
  {
  }

  /** `WalkList` at an item that is a dict. */
  lemma {:induction false} WalkListAtDict(orig: Heap, h: Heap, c: nat, j: nat)
    requires Forward(orig) && c < |orig| && orig[c].List? && j < |orig[c].items|
    requires orig[c].items[j] == Slot(orig[c], j) && orig[c].items[j].Ref? && orig[orig[c].items[j].id].Dict?
    requires Resolves(orig, h)
    ensures WalkDict(orig, h, orig[c].items[j].id, 0).Crashed? ==> WalkList(orig, h, c, j).Crashed?
    ensures WalkDict(orig, h, orig[c].items[j].id, 0).Done? ==>
              WalkList(orig, h, c, j) == WalkList(orig, WalkDict(orig, h, orig[c].items[j].id, 0).heap, c, j + 1)
  {
  }

  // ---------------------------------------------------------------------
  // In a tree no slot is visited twice

  /** Two sequences with distinct elements and no element in common. */
  lemma {:induction false} DistinctAppend(a: seq<(nat, nat)>, b: seq<(nat, nat)>)
    requires Distinct(a) && Distinct(b)
    requires forall p, q :: 0 <= p < |a| && 0 <= q < |b| ==> a[p] != b[q]
    ensures Distinct(a + b)
  {
    forall p, q | 0 <= p < q < |a + b| ensures (a + b)[p] != (a + b)[q] {
      if q < |a| {
        assert (a + b)[p] == a[p] && (a + b)[q] == a[q];
      } else if p < |a| {
        assert (a + b)[p] == a[p] && (a + b)[q] == b[q - |a|];
      } else {
        assert (a + b)[p] == b[p - |a|] && (a + b)[q] == b[q - |a|];
      }
    }
  }

  lemma {:induction false} DictOrderDistinct(orig: Heap, d: nat, i: nat)
    requires Forward(orig) && Unshared(orig) && d < |orig| && orig[d].Dict? && i <= |orig[d].entries|
    ensures Distinct(DictOrder(orig, d, i))
    decreases |orig| - d, 1, |orig[d].entries| - i
  {
    if i < |orig[d].entries| {
      var a, b := EntryOrder(orig, d, i), DictOrder(orig, d, i + 1);
      EntryOrderDistinct(orig, d, i);
      DictOrderDistinct(orig, d, i + 1);
      EntryOrderWithin(orig, d, i);
      DictOrderWithin(orig, d, i + 1);
      forall p, q | 0 <= p < |a| && 0 <= q < |b| ensures a[p] != b[q] {
        if a[p] != (d, i) && b[q].0 != d {
          var s := BelowFromWitness(orig, d, i + 1, b[q].0);
          BelowDisjoint(orig, d, i, s, b[q].0);
        }
      }
      DistinctAppend(a, b);
    }
  }

  lemma {:induction false} EntryOrderDistinct(orig: Heap, d: nat, i: nat)
    requires Forward(orig) && Unshared(orig) && d < |orig| && orig[d].Dict? && i < |orig[d].entries|
    ensures Distinct(EntryOrder(orig, d, i))
    decreases |orig| - d, 0, 0
  {
    var v := orig[d].entries[i].1;
    assert v == Slot(orig[d], i);
    if IsPlaceholder(v) {
    } else if v.Ref? && orig[v.id].Dict? {
      DictOrderDistinct(orig, v.id, 0);
    } else if v.Ref? {
      ListOrderDistinct(orig, v.id, 0);
    }
  }

  lemma {:induction false} ListOrderDistinct(orig: Heap, c: nat, j: nat)
    requires Forward(orig) && Unshared(orig) && c < |orig| && orig[c].List? && j <= |orig[c].items|
    ensures Distinct(ListOrder(orig, c, j))
    decreases |orig| - c, 1, |orig[c].items| - j
  {
    if j < |orig[c].items| {
      var e := orig[c].items[j];
      assert e == Slot(orig[c], j);
      var b := ListOrder(orig, c, j + 1);
      ListOrderDistinct(orig, c, j + 1);
      ListOrderWithin(orig, c, j + 1);
      if e.Ref? && orig[e.id].Dict? {
        var a := DictOrder(orig, e.id, 0);
        DictOrderDistinct(orig, e.id, 0);
        DictOrderWithin(orig, e.id, 0);
        forall p, q | 0 <= p < |a| && 0 <= q < |b| ensures a[p] != b[q] {
          BelowStep(orig, e.id, a[p].0);
          var s := BelowFromWitness(orig, c, j + 1, b[q].0);
          BelowDisjoint(orig, c, j, s, b[q].0);
        }
        DistinctAppend(a, b);
      } else {
        assert ListOrder(orig, c, j) == b;
      }
    }
  }

  // ---------------------------------------------------------------------
  // What the finished document holds

  /** The walk of dict `d` from key `i` on writes only slots `i` onward of
      `d` and slots of the containers below them. */
  lemma {:induction false} WalkDictFrame(orig: Heap, h: Heap, d: nat, i: nat, x: nat, m: nat)
    requires Forward(orig) && d < |orig| && orig[d].Dict? && i <= |orig[d].entries|
    requires Resolves(orig, h) && WalkDict(orig, h, d, i).Done?
    requires x < |orig| && orig[x].Dict? && m < |orig[x].entries|
    requires !(x == d && i <= m) && x !in BelowFrom(orig, d, i)
    ensures WalkDict(orig, h, d, i).heap[x].entries[m] == h[x].entries[m]
  {
    WalkDictRuns(orig, h, d, i);
    DictOrderWithin(orig, d, i);
    RunFrame(orig, h, DictOrder(orig, d, i), x, m);
  }

  /** `replace_dollar_sign_values` resolves the placeholder slots of the
      loaded document one after another, in visit order, and none twice. */
  lemma {:induction false} WalkIsInOrder(doc: Heap)
    requires WellFormed(doc)
    ensures Distinct(PlaceholderOrder(doc))
    ensures ReplaceDollarSignValues(doc) == RunSlots(doc, doc, PlaceholderOrder(doc))
  {
    DictOrderDistinct(doc, ROOT, 0);
    WalkDictRuns(doc, doc, ROOT, 0);
  }

  /** The `k`-th placeholder slot visited still holds its placeholder when
      its turn comes; in the finished document it holds the value its path
      names in the heap of that moment, or its placeholder when that value
      is missing or None. */
  lemma {:induction false} ResolvedAtItsTurn(doc: Heap, k: nat)
    requires WellFormed(doc) && ReplaceDollarSignValues(doc).Done?
    requires k < |PlaceholderOrder(doc)|
    ensures var order := PlaceholderOrder(doc);
            var (x, m) := order[k];
            && RunSlots(doc, doc, order[..k]).Done?
            && var before := RunSlots(doc, doc, order[..k]).heap;
            && before[x].entries[m] == doc[x].entries[m]
            && ReplaceDollarSignValues(doc).heap[x].entries[m]
               == match ResolvePlaceholder(before, doc[x].entries[m].1.s)
                  case Replace(w) => (doc[x].entries[m].0, w)
                  case Keep => doc[x].entries[m]
                  case Raise => doc[x].entries[m]
  {
    var order := PlaceholderOrder(doc);
    WalkIsInOrder(doc);
    RunKeeps(doc, doc, order, k);
  }

  /** A slot outside the visit order is the same in the finished document. */
  lemma {:induction false} UnvisitedUnchanged(doc: Heap, x: nat, m: nat)
    requires WellFormed(doc) && ReplaceDollarSignValues(doc).Done?
    requires x < |doc| && doc[x].Dict? && m < |doc[x].entries| && (x, m) !in PlaceholderOrder(doc)
    ensures ReplaceDollarSignValues(doc).heap[x].entries[m] == doc[x].entries[m]
  {
    WalkIsInOrder(doc);
    RunFrame(doc, doc, PlaceholderOrder(doc), x, m);
  }
}
