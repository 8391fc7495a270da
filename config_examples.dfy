/** Worked documents for `replace_dollar_sign_values`; each walk is taken one
    visited key at a time. */
module ConfigExamples {
  import opened Strings
  import opened ConfigResolve

  function Doc1(): Heap {
    [Dict([("a", Ref(1)), ("x", Str("$a.b")), ("y", Str("$a.z"))]), Dict([("b", Int(5))])]
  }

  function Doc1Resolved(): Heap {
    [Dict([("a", Ref(1)), ("x", Int(5)), ("y", Str("$a.z"))]), Dict([("b", Int(5))])]
  }

  lemma Doc1OnlyRef()
    ensures forall d, i :: 0 <= d < |Doc1()| && 0 <= i < Width(Doc1()[d]) && Slot(Doc1()[d], i).Ref? ==> d == 0 && i == 0
  {
    var doc := Doc1();
    forall d, i | 0 <= d < |doc| && 0 <= i < Width(doc[d]) && Slot(doc[d], i).Ref?
      ensures d == 0 && i == 0
    {
      if d == 0 {
        assert i == 0;
      }
    }
  }

  lemma Doc1WellFormed()
    ensures WellFormed(Doc1())
  {
    Doc1OnlyRef();
  }

  lemma Doc1Paths()
    ensures PathOf("$a.b") == ["a", "b"] && PathOf("$a.z") == ["a", "z"]
  {
    assert Join(["a", "b"], '.') == "a.b";
    assert Join(["a", "z"], '.') == "a.z";
    DottedPath(["a", "b"]);
    DottedPath(["a", "z"]);
  }

  lemma Doc1Resolves()
    ensures Resolves(Doc1(), Doc1Resolved())
  {
    Doc1WellFormed();
    var h := Doc1Resolved();
    assert Closed(h) by {
      forall d, i | 0 <= d < |h| && 0 <= i < Width(h[d]) && Slot(h[d], i).Ref?
        ensures Slot(h[d], i).id < |h|
      {
        assert d == 0 && i == 0;
      }
    }
  }

  /** A one-segment reference `"$" + key`. */
  lemma SingleSegment(key: string)
    requires '$' !in key && '.' !in key
    ensures PathOf("$" + key) == [key]
  {
    DottedPath([key]);
  }

  lemma Doc1FoundB()
    ensures Closed(Doc1())
    ensures Navigate(Doc1(), Ref(ROOT), ["a", "b"]) == Found(Int(5))
  {
    var doc := Doc1();
    Doc1WellFormed();
    assert KeyIndex(doc[0].entries, "a") == 0;
    assert KeyIndex(doc[1].entries, "b") == 0;
  }

  lemma Doc1MissingZ()
    ensures Closed(Doc1Resolved())
    ensures Navigate(Doc1Resolved(), Ref(ROOT), ["a", "z"]) == Missing
  {
    var h := Doc1Resolved();
    Doc1Resolves();
    assert KeyIndex(h[0].entries, "a") == 0;
    assert KeyIndex(h[1].entries, "z") == 1;
  }

  lemma Doc1Lookups()
    ensures Closed(Doc1()) && Closed(Doc1Resolved())
    ensures ResolvePlaceholder(Doc1(), "$a.b") == Replace(Int(5))
    ensures ResolvePlaceholder(Doc1Resolved(), "$a.z") == Keep
  {
    Doc1Paths();
    Doc1FoundB();
    Doc1MissingZ();
  }

  lemma Doc1Inner()
    ensures WellFormed(Doc1()) && Resolves(Doc1(), Doc1()) && Resolves(Doc1(), Doc1Resolved())
    ensures VisitEntry(Doc1(), Doc1(), 0, 0) == Done(Doc1())
  {
    var doc := Doc1();
    Doc1WellFormed();
    Doc1Resolves();
    assert VisitEntry(doc, doc, 1, 0) == Done(doc);
    assert WalkDict(doc, doc, 1, 1) == Done(doc);
  }

  lemma Doc1ReplaceSlot()
    ensures Resolves(Doc1(), Doc1()) && IsPlaceholder(Str("$a.b"))
    ensures ResolveSlot(Doc1(), Doc1(), 0, 1) == Done(Doc1Resolved())
  {
    var doc, h := Doc1(), Doc1Resolved();
    Doc1WellFormed();
    Doc1Lookups();
    assert doc[0].entries[1] == ("x", Str("$a.b"));
    assert IsPlaceholder(Str("$a.b"));
    assert doc[0].entries[1 := ("x", Int(5))] == h[0].entries;
    assert doc[0 := Dict(h[0].entries)] == h;
  }

  lemma Doc1Replace()
    ensures WellFormed(Doc1()) && Resolves(Doc1(), Doc1()) && Resolves(Doc1(), Doc1Resolved())
    ensures VisitEntry(Doc1(), Doc1(), 0, 1) == Done(Doc1Resolved())
  {
    Doc1WellFormed();
    Doc1Resolves();
    Doc1ReplaceSlot();
  }

  lemma Doc1Keep()
    ensures WellFormed(Doc1()) && Resolves(Doc1(), Doc1Resolved())
    ensures VisitEntry(Doc1(), Doc1Resolved(), 0, 2) == Done(Doc1Resolved())
  {
    Doc1WellFormed();
    Doc1Resolves();
    Doc1Lookups();
    assert IsPlaceholder(Str("$a.z"));
  }

  /** `{"a": {"b": 5}, "x": "$a.b", "y": "$a.z"}`: `x` becomes 5; `y` keeps its
      placeholder because `z` is missing. */
  lemma ReferenceFoundOrKept()
    ensures WellFormed(Doc1())
    ensures ReplaceDollarSignValues(Doc1()) == Done(Doc1Resolved())
  {
    var doc, h := Doc1(), Doc1Resolved();
    Doc1Inner();
    Doc1Replace();
    Doc1Keep();
    assert WalkDict(doc, h, 0, 3) == Done(h);
    assert WalkDict(doc, h, 0, 2) == Done(h);
    assert WalkDict(doc, doc, 0, 1) == Done(h);
    assert WalkDict(doc, doc, 0, 0) == Done(h);
  }

  // Aliasing: `{"a": "$b", "b": {"c": "$d"}, "d": 7}`

  function Doc2(): Heap {
    [Dict([("a", Str("$b")), ("b", Ref(1)), ("d", Int(7))]), Dict([("c", Str("$d"))])]
  }

  function Doc2Step1(): Heap {
    [Dict([("a", Ref(1)), ("b", Ref(1)), ("d", Int(7))]), Dict([("c", Str("$d"))])]
  }

  function Doc2Resolved(): Heap {
    [Dict([("a", Ref(1)), ("b", Ref(1)), ("d", Int(7))]), Dict([("c", Int(7))])]
  }

  /** The only reference in `Doc2` is the slot `b` of the root. */
  lemma Doc2OnlyRef()
    ensures forall d, i :: 0 <= d < |Doc2()| && 0 <= i < Width(Doc2()[d]) && Slot(Doc2()[d], i).Ref? ==> d == 0 && i == 1
  {
    var doc := Doc2();
    forall d, i | 0 <= d < |doc| && 0 <= i < Width(doc[d]) && Slot(doc[d], i).Ref?
      ensures d == 0 && i == 1
    {
      if d == 0 {
        assert i == 1;
      }
    }
  }

  lemma Doc2WellFormed()
    ensures WellFormed(Doc2())
  {
    Doc2OnlyRef();
  }

  lemma Doc2Step1Resolves()
    ensures Resolves(Doc2(), Doc2Step1())
  {
    var h1 := Doc2Step1();
    forall d, i | 0 <= d < |h1| && 0 <= i < Width(h1[d]) && Slot(h1[d], i).Ref?
      ensures Slot(h1[d], i).id < |h1|
    {
      assert d == 0;
    }
    assert IsPlaceholder(Str("$b"));
  }

  lemma Doc2ResolvedResolves()
    ensures Resolves(Doc2(), Doc2Resolved())
  {
    var h2 := Doc2Resolved();
    forall d, i | 0 <= d < |h2| && 0 <= i < Width(h2[d]) && Slot(h2[d], i).Ref?
      ensures Slot(h2[d], i).id < |h2|
    {
      assert d == 0;
    }
    assert IsPlaceholder(Str("$b")) && IsPlaceholder(Str("$d"));
  }

  lemma Doc2Shapes()
    ensures WellFormed(Doc2()) && Resolves(Doc2(), Doc2()) && Resolves(Doc2(), Doc2Step1()) && Resolves(Doc2(), Doc2Resolved())
  {
    Doc2WellFormed();
    Doc2Step1Resolves();
    Doc2ResolvedResolves();
  }

  lemma Doc2Facts()
    ensures WellFormed(Doc2()) && Resolves(Doc2(), Doc2()) && Resolves(Doc2(), Doc2Step1()) && Resolves(Doc2(), Doc2Resolved())
    ensures ResolvePlaceholder(Doc2(), "$b") == Replace(Ref(1))
    ensures ResolvePlaceholder(Doc2Step1(), "$d") == Replace(Int(7))
  {
    Doc2Shapes();
    SingleSegment("b");
    SingleSegment("d");
    Doc2FoundB();
    Doc2FoundD();
  }

  lemma Doc2FoundB()
    ensures Closed(Doc2())
    ensures Navigate(Doc2(), Ref(ROOT), ["b"]) == Found(Ref(1))
  {
    var doc := Doc2();
    Doc2WellFormed();
    assert KeyIndex(doc[0].entries, "b") == 1;
  }

  lemma Doc2FoundD()
    ensures Closed(Doc2Step1())
    ensures Navigate(Doc2Step1(), Ref(ROOT), ["d"]) == Found(Int(7))
  {
    var h1 := Doc2Step1();
    Doc2Step1Resolves();
    assert KeyIndex(h1[0].entries, "d") == 2;
  }

  lemma Doc2FirstSlot()
    ensures Resolves(Doc2(), Doc2()) && IsPlaceholder(Str("$b"))
    ensures ResolveSlot(Doc2(), Doc2(), 0, 0) == Done(Doc2Step1())
  {
    var doc, h1 := Doc2(), Doc2Step1();
    Doc2Facts();
    assert doc[0].entries[0] == ("a", Str("$b"));
    assert IsPlaceholder(Str("$b"));
    assert doc[0].entries[0 := ("a", Ref(1))] == h1[0].entries;
    assert doc[0 := Dict(h1[0].entries)] == h1;
  }

  lemma Doc2First()
    ensures WellFormed(Doc2()) && Resolves(Doc2(), Doc2())
    ensures VisitEntry(Doc2(), Doc2(), 0, 0) == Done(Doc2Step1())
  {
    Doc2WellFormed();
    Doc2FirstSlot();
  }

  lemma Doc2NestedSlot()
    ensures Resolves(Doc2(), Doc2Step1()) && IsPlaceholder(Str("$d"))
    ensures ResolveSlot(Doc2(), Doc2Step1(), 1, 0) == Done(Doc2Resolved())
  {
    var doc, h1, h2 := Doc2(), Doc2Step1(), Doc2Resolved();
    Doc2Facts();
    assert doc[1].entries[0] == ("c", Str("$d"));
    assert IsPlaceholder(Str("$d"));
    assert h1[1].entries[0 := ("c", Int(7))] == h2[1].entries;
    assert h1[1 := Dict(h2[1].entries)] == h2;
  }

  lemma Doc2Nested()
    ensures WellFormed(Doc2()) && Resolves(Doc2(), Doc2Step1())
    ensures VisitEntry(Doc2(), Doc2Step1(), 1, 0) == Done(Doc2Resolved())
  {
    Doc2WellFormed();
    Doc2NestedSlot();
  }

  lemma Doc2Walk()
    ensures WellFormed(Doc2())
    ensures ReplaceDollarSignValues(Doc2()) == Done(Doc2Resolved())
  {
    var doc, h1, h2 := Doc2(), Doc2Step1(), Doc2Resolved();
    Doc2First();
    Doc2Rest();
    assert WalkDict(doc, h1, 0, 1) == Done(h2);
  }

  /** After `a`: the key `b` descends into the nested dict, then `d` is kept. */
  lemma Doc2Rest()
    ensures WellFormed(Doc2()) && Resolves(Doc2(), Doc2Step1())
    ensures VisitEntry(Doc2(), Doc2Step1(), 0, 1) == Done(Doc2Resolved())
    ensures Resolves(Doc2(), Doc2Resolved())
    ensures VisitEntry(Doc2(), Doc2Resolved(), 0, 2) == Done(Doc2Resolved())
  {
    var doc, h1, h2 := Doc2(), Doc2Step1(), Doc2Resolved();
    Doc2Shapes();
    Doc2Nested();
    assert WalkDict(doc, h1, 1, 0) == Done(h2);
  }

  /** `{"a": "$b", "b": {"c": "$d"}, "d": 7}`: `a` is bound to the very dict
      `b` names, so the later rewrite of `b.c` to 7 is seen through `a` as well. */
  lemma AliasSeesLaterRewrite()
    ensures WellFormed(Doc2())
    ensures ReplaceDollarSignValues(Doc2()).Done?
    ensures Closed(ReplaceDollarSignValues(Doc2()).heap) && |ReplaceDollarSignValues(Doc2()).heap| > 0
    ensures Navigate(ReplaceDollarSignValues(Doc2()).heap, Ref(ROOT), ["a", "c"]) == Found(Int(7))
  {
    Doc2Walk();
    Doc2AliasC();
  }

  lemma Doc2AliasC()
    ensures Closed(Doc2Resolved())
    ensures Navigate(Doc2Resolved(), Ref(ROOT), ["a", "c"]) == Found(Int(7))
  {
    var h2 := Doc2Resolved();
    Doc2ResolvedResolves();
    assert KeyIndex(h2[0].entries, "a") == 0;
    assert KeyIndex(h2[1].entries, "c") == 0;
  }

  // Order: `{"c": "$a", "a": "$b", "b": 1}`

  function Doc3(): Heap {
    [Dict([("c", Str("$a")), ("a", Str("$b")), ("b", Int(1))])]
  }

  function Doc3Step1(): Heap {
    [Dict([("c", Str("$b")), ("a", Str("$b")), ("b", Int(1))])]
  }

  function Doc3Resolved(): Heap {
    [Dict([("c", Str("$b")), ("a", Int(1)), ("b", Int(1))])]
  }

  lemma Doc3WellFormed()
    ensures WellFormed(Doc3()) && Resolves(Doc3(), Doc3())
  {
  }

  lemma Doc3Step1Resolves()
    ensures Resolves(Doc3(), Doc3Step1())
  {
    assert IsPlaceholder(Str("$a"));
  }

  lemma Doc3ResolvedResolves()
    ensures Resolves(Doc3(), Doc3Resolved())
  {
    assert IsPlaceholder(Str("$a")) && IsPlaceholder(Str("$b"));
  }

  lemma Doc3Shapes()
    ensures WellFormed(Doc3()) && Resolves(Doc3(), Doc3()) && Resolves(Doc3(), Doc3Step1()) && Resolves(Doc3(), Doc3Resolved())
  {
    Doc3WellFormed();
    Doc3Step1Resolves();
    Doc3ResolvedResolves();
  }

  lemma Doc3LookupA()
    ensures Closed(Doc3()) && |Doc3()| > 0
    ensures ResolvePlaceholder(Doc3(), "$a") == Replace(Str("$b"))
  {
    var doc := Doc3();
    Doc3WellFormed();
    SingleSegment("a");
    assert KeyIndex(doc[0].entries, "a") == 1;
  }

  lemma Doc3LookupB()
    ensures Closed(Doc3Step1()) && |Doc3Step1()| > 0
    ensures ResolvePlaceholder(Doc3Step1(), "$b") == Replace(Int(1))
  {
    var h1 := Doc3Step1();
    Doc3Step1Resolves();
    SingleSegment("b");
    assert KeyIndex(h1[0].entries, "b") == 2;
  }

  lemma Doc3FirstSlot()
    ensures Resolves(Doc3(), Doc3()) && IsPlaceholder(Str("$a"))
    ensures ResolveSlot(Doc3(), Doc3(), 0, 0) == Done(Doc3Step1())
  {
    var doc, h1 := Doc3(), Doc3Step1();
    Doc3WellFormed();
    Doc3LookupA();
    assert doc[0].entries[0] == ("c", Str("$a"));
    assert doc[0].entries[0 := ("c", Str("$b"))] == h1[0].entries;
    assert doc[0 := Dict(h1[0].entries)] == h1;
  }

  lemma Doc3First()
    ensures WellFormed(Doc3()) && Resolves(Doc3(), Doc3())
    ensures VisitEntry(Doc3(), Doc3(), 0, 0) == Done(Doc3Step1())
  {
    Doc3WellFormed();
    Doc3FirstSlot();
  }

  lemma Doc3SecondSlot()
    ensures Resolves(Doc3(), Doc3Step1()) && IsPlaceholder(Str("$b"))
    ensures ResolveSlot(Doc3(), Doc3Step1(), 0, 1) == Done(Doc3Resolved())
  {
    var doc, h1, h2 := Doc3(), Doc3Step1(), Doc3Resolved();
    Doc3Step1Resolves();
    Doc3LookupB();
    assert doc[0].entries[1] == ("a", Str("$b"));
    assert h1[0].entries[1 := ("a", Int(1))] == h2[0].entries;
    assert h1[0 := Dict(h2[0].entries)] == h2;
  }

  lemma Doc3Second()
    ensures WellFormed(Doc3()) && Resolves(Doc3(), Doc3Step1())
    ensures VisitEntry(Doc3(), Doc3Step1(), 0, 1) == Done(Doc3Resolved())
  {
    Doc3WellFormed();
    Doc3SecondSlot();
  }

  /** `{"c": "$a", "a": "$b", "b": 1}`: `c` is visited first and receives the
      still unresolved string `"$b"`, which is not looked up again; `a` then
      becomes 1. A forward reference thus yields the placeholder it points at. */
  lemma ForwardReferenceGetsPlaceholder()
    ensures WellFormed(Doc3())
    ensures ReplaceDollarSignValues(Doc3()) == Done([Dict([("c", Str("$b")), ("a", Int(1)), ("b", Int(1))])])
  {
    var doc, h1, h2 := Doc3(), Doc3Step1(), Doc3Resolved();
    Doc3Shapes();
    Doc3First();
    Doc3Second();
    assert VisitEntry(doc, h2, 0, 2) == Done(h2);
    assert WalkDict(doc, h2, 0, 2) == Done(h2);
    assert WalkDict(doc, h1, 0, 1) == Done(h2);
  }
}
