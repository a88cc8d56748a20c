/**
 * The configurations from the documentation comment of
 * `createMachineComponent` and from its test suite, with the element trees
 * the resolver produces for the state values those machines go through.
 */
module Scenarios {
  import opened Wrappers
  import opened StateValues
  import opened MachineComponent
  import opened Identity

  /** One rendering per observed snapshot: the resolver reads each state value
      once and produces one tree for it. */
  function Renders(config: Config, values: seq<StateValue>, props: Props, children: Children): (r: seq<Element>)
    ensures |r| == |values|
    ensures forall i | 0 <= i < |values| :: r[i] == RenderWithStateValue(config, values[i], props, children)
  {
    if values == [] then []
    else [RenderWithStateValue(config, values[0], props, children)] + Renders(config, values[1..], props, children)
  }

  function Nested(key: string, inner: string): StateValue {
    Compound([Entry(key, Label(inner))])
  }

  // ---- The documentation example ----

  const DocB: Config := Node(Some("LayoutB"), Some("FallbackB"), map["c" := Leaf("C"), "d" := Leaf("NullD")])

  const DocConfig: Config := Node(None, None, map["a" := Leaf("A"), "b" := DocB])

  /** 'a' renders A; { b: 'c' } renders B's Layout around C; { b: 'd' }
      renders the Layout around a view that returns null; { b: 'e' } renders
      the Layout around the Fallback; 'f' renders nothing, as the root has no
      Fallback. */
  lemma DocumentedRenders(props: Props, children: Children)
    ensures RenderWithStateValue(DocConfig, Label("a"), props, children)
         == Resolver(Resolver(Render("A", props, Forwarded(children))))
    ensures RenderWithStateValue(DocConfig, Nested("b", "c"), props, children)
         == Resolver(Resolver(Render("LayoutB", props, Resolver(Render("C", props, Forwarded(children))))))
    ensures RenderWithStateValue(DocConfig, Nested("b", "d"), props, children)
         == Resolver(Resolver(Render("LayoutB", props, Resolver(Render("NullD", props, Forwarded(children))))))
    ensures RenderWithStateValue(DocConfig, Nested("b", "e"), props, children)
         == Resolver(Resolver(Render("LayoutB", props, Render("FallbackB", props, Forwarded(children)))))
    ensures RenderWithStateValue(DocConfig, Label("f"), props, children) == Resolver(Empty)
  {
    LeafRendersDirectly("A", Null, props, children);
    LeafRendersDirectly("C", Null, props, children);
    LeafRendersDirectly("NullD", Null, props, children);
    assert At(DocB, Label("c"), props, children) == Render("LayoutB", props, Resolver(Render("C", props, Forwarded(children))));
    assert At(DocB, Label("d"), props, children) == Render("LayoutB", props, Resolver(Render("NullD", props, Forwarded(children))));
    assert At(DocB, Label("e"), props, children) == Render("LayoutB", props, Render("FallbackB", props, Forwarded(children)));
  }

  // ---- "Basic machine": a -> b -> c -> d -> a on NEXT ----

  /** The states the basic test machine visits, starting in "a" and sending
      NEXT four times. */
  const BasicCycle: seq<StateValue> := [Label("a"), Label("b"), Label("c"), Label("d"), Label("a")]

  const StatesConfig: Config := Node(None, None, map["a" := Leaf("A"), "b" := Leaf("B"), "c" := Leaf("C")])

  /** A, B and C render in turn, the unconfigured "d" renders nothing, and
      the machine's return to "a" renders A again. */
  lemma StatesFieldRenders(props: Props, children: Children)
    ensures Renders(StatesConfig, BasicCycle, props, children) == [
      Resolver(Resolver(Render("A", props, Forwarded(children)))),
      Resolver(Resolver(Render("B", props, Forwarded(children)))),
      Resolver(Resolver(Render("C", props, Forwarded(children)))),
      Resolver(Empty),
      Resolver(Resolver(Render("A", props, Forwarded(children))))]
  {
    LeafRendersDirectly("A", Null, props, children);
    LeafRendersDirectly("B", Null, props, children);
    LeafRendersDirectly("C", Null, props, children);
  }

  const ForwardConfig: Config := Node(None, None, map["a" := Leaf("A"), "b" := Leaf("B")])

  /** `foo="bar"` and the children "Child" reach A, and then B. */
  lemma PropsReachViews(actorRef: ActorRef)
    ensures var props := Props(actorRef, map["foo" := "bar"]);
            RenderWithStateValue(ForwardConfig, Label("a"), props, ["Child"])
              == Resolver(Resolver(Render("A", props, Forwarded(["Child"])))) &&
            RenderWithStateValue(ForwardConfig, Label("b"), props, ["Child"])
              == Resolver(Resolver(Render("B", props, Forwarded(["Child"]))))
  {
    var props := Props(actorRef, map["foo" := "bar"]);
    LeafRendersDirectly("A", Null, props, ["Child"]);
    LeafRendersDirectly("B", Null, props, ["Child"]);
  }

  /** `a` and `b` share the Counter reference; `c` and `d` are two distinct
      inline functions that each render a Counter of their own. */
  const CounterConfig: Config :=
    Node(None, None, map["a" := Leaf("Counter"), "b" := Leaf("Counter"), "c" := Leaf("InlineC"), "d" := Leaf("InlineD")])

  /** The Counter sits at depth 2, below the resolver elements of
      `RenderWithStateValue` and of the root node. Its count survives a -> b;
      going on to c and then to d replaces the view each time. */
  lemma SharedCounterKeepsCount(props: Props, children: Children)
    ensures var r := Renders(CounterConfig, BasicCycle[..4], props, children);
            Survives(r[0], r[1], 2) && !Survives(r[1], r[2], 2) && !Survives(r[2], r[3], 2)
  {
    var r := Renders(CounterConfig, BasicCycle[..4], props, children);
    var atA, atB := At(CounterConfig, Label("a"), props, children), At(CounterConfig, Label("b"), props, children);
    var atC, atD := At(CounterConfig, Label("c"), props, children), At(CounterConfig, Label("d"), props, children);
    SharedViewSurvives(None, None, CounterConfig.states, Label("a"), Label("b"), "Counter", props, children);
    LeafRendersDirectly("Counter", Null, props, children);
    assert Types(Render("Counter", props, Forwarded(children))) == [View("Counter")];
    assert Types(atA) == [Machine, View("Counter")];
    ResolverLifts(atA, atB, 1);
    DistinctViewsRemount(None, None, CounterConfig.states, Label("b"), Label("c"), "Counter", "InlineC", props, children);
    ResolverLifts(atB, atC, 1);
    DistinctViewsRemount(None, None, CounterConfig.states, Label("c"), Label("d"), "InlineC", "InlineD", props, children);
    ResolverLifts(atC, atD, 1);
  }

  const RootFallbackConfig: Config := Node(None, Some("Fallback"), map["a" := Leaf("A"), "c" := Leaf("NullC")])

  /** "b" has no entry and renders the Fallback with the props; "c" has an
      entry whose view renders null, and the Fallback is not rendered. */
  lemma FallbackOnlyForMissingEntries(props: Props, children: Children)
    ensures Renders(RootFallbackConfig, BasicCycle[..3], props, children) == [
      Resolver(Resolver(Render("A", props, Forwarded(children)))),
      Resolver(Render("Fallback", props, Forwarded(children))),
      Resolver(Resolver(Render("NullC", props, Forwarded(children))))]
    ensures Terminal(RootFallbackConfig, Label("c")) == Some("NullC")
  {
    LeafRendersDirectly("A", Null, props, children);
    LeafRendersDirectly("NullC", Null, props, children);
  }

  // ---- "Nested machine": a (with children b <-> c on innerNext) <-> d on NEXT ----

  /** The states of the nested test: { a: 'b' }, innerNext to { a: 'c' },
      innerNext back to { a: 'b' }, NEXT to 'd', NEXT to { a: 'b' }. */
  const NestedRun: seq<StateValue> := [Nested("a", "b"), Nested("a", "c"), Nested("a", "b"), Label("d"), Nested("a", "b")]

  const NestedA: Config := Node(Some("LayoutA"), None, map["b" := Leaf("B"), "c" := Leaf("C")])

  const NestedConfig: Config := Node(None, None, map["a" := NestedA, "d" := Leaf("D")])

  /** A's Layout (which counts clicks) stands at depth 2 and its inner view
      at depth 4. Moving between b and c keeps the Layout and its count and
      swaps the inner view; going to d unmounts the Layout, so coming back
      starts a new one at count 0. */
  lemma NestedLayoutKeepsCount(props: Props, children: Children)
    ensures var r := Renders(NestedConfig, NestedRun, props, children);
            r[0] == Resolver(Resolver(Render("LayoutA", props, Resolver(Render("B", props, Forwarded(children)))))) &&
            r[1] == Resolver(Resolver(Render("LayoutA", props, Resolver(Render("C", props, Forwarded(children)))))) &&
            r[3] == Resolver(Resolver(Render("D", props, Forwarded(children)))) &&
            Survives(r[0], r[1], 2) && !Survives(r[0], r[1], 4) && Survives(r[1], r[2], 2) &&
            (forall d: nat | 2 <= d :: !Survives(r[2], r[3], d) && !Survives(r[3], r[4], d))
  {
    var r := Renders(NestedConfig, NestedRun, props, children);
    LeafRendersDirectly("B", Null, props, children);
    LeafRendersDirectly("C", Null, props, children);
    LeafRendersDirectly("D", Null, props, children);
    assert At(NestedA, Label("b"), props, children) == Render("LayoutA", props, Resolver(Render("B", props, Forwarded(children))));
    assert At(NestedA, Label("c"), props, children) == Render("LayoutA", props, Resolver(Render("C", props, Forwarded(children))));
    var inB := Resolver(Render("B", props, Forwarded(children)));
    var inC := Resolver(Render("C", props, Forwarded(children)));
    assert Types(Render("B", props, Forwarded(children))) == [View("B")];
    assert Types(Render("C", props, Forwarded(children))) == [View("C")];
    assert Types(inB) == [Machine, View("B")] && Types(inC) == [Machine, View("C")];
    assert Types(Render("LayoutA", props, inB)) == [View("LayoutA"), Machine, View("B")];
    assert Types(Render("LayoutA", props, inC)) == [View("LayoutA"), Machine, View("C")];
    assert Types(Render("D", props, Forwarded(children))) == [View("D")];
    assert Types(r[0]) == [Machine, Machine, View("LayoutA"), Machine, View("B")];
    assert Types(r[1]) == [Machine, Machine, View("LayoutA"), Machine, View("C")];
    assert Types(r[3]) == [Machine, Machine, View("D")];
    // The Layout of the nested node survives within `a`, hence under the
    // root's resolver element and under the root rendering.
    LayoutSurvivesChildChanges("LayoutA", None, NestedA.states, Label("b"), Label("c"), props, children);
    DescendingKeepsPrefix(None, None, NestedConfig.states, NestedRun[0], NestedRun[1], props, children);
    assert Survives(At(NestedConfig, NestedRun[0], props, children), At(NestedConfig, NestedRun[1], props, children), 1);
    ResolverLifts(At(NestedConfig, NestedRun[0], props, children), At(NestedConfig, NestedRun[1], props, children), 1);
    assert Types(r[0])[..5][4] != Types(r[1])[..5][4];
    assert Types(r[2])[..3][2] != Types(r[3])[..3][2];
    forall d: nat | 2 <= d ensures !Survives(r[2], r[3], d) && !Survives(r[3], r[4], d) {
      LostBelowLost(r[2], r[3], 2, d);
      LostBelowLost(r[3], r[4], 2, d);
    }
  }

  const NestedFallbackA: Config := Node(Some("LayoutA"), Some("ChildFallback"), map["b" := Leaf("B")])

  const NestedFallbackConfig: Config := Node(None, Some("RootFallback"), map["a" := NestedFallbackA])

  /** { a: 'c' } renders A's Layout around A's own Fallback; 'd' renders the
      root Fallback. */
  lemma NestedFallbacks(props: Props, children: Children)
    ensures Renders(NestedFallbackConfig, NestedRun, props, children) == [
      Resolver(Resolver(Render("LayoutA", props, Resolver(Render("B", props, Forwarded(children)))))),
      Resolver(Resolver(Render("LayoutA", props, Render("ChildFallback", props, Forwarded(children))))),
      Resolver(Resolver(Render("LayoutA", props, Resolver(Render("B", props, Forwarded(children)))))),
      Resolver(Render("RootFallback", props, Forwarded(children))),
      Resolver(Resolver(Render("LayoutA", props, Resolver(Render("B", props, Forwarded(children))))))]
  {
    LeafRendersDirectly("B", Null, props, children);
    assert At(NestedFallbackA, Label("b"), props, children) == Render("LayoutA", props, Resolver(Render("B", props, Forwarded(children))));
    assert At(NestedFallbackA, Label("c"), props, children) == Render("LayoutA", props, Render("ChildFallback", props, Forwarded(children)));
  }
}
