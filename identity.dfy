/**
 * Rendering identity. React keeps a component instance, and the local state
 * it holds, across two renders when the same component reference stands at
 * the same position. The resolver never wraps or re-creates the references
 * it is configured with, so identity across state changes is decided by the
 * chain of component types it produces.
 */
module Identity {
  import opened Wrappers
  import opened StateValues
  import opened MachineComponent

  /** The type React compares at a position: a configured view, or the
      resolver component itself (the same function for every level). */
  datatype ComponentType = View(ref: ViewRef) | Machine

  /** The component types along the rendered chain, outermost first. The
      caller's children are host content and end the chain. */
  function Types(e: Element): seq<ComponentType> {
    match e
    case Empty => []
    case Forwarded(_) => []
    case Render(view, _, inner) => [View(view)] + Types(inner)
    case Resolver(inner) => [Machine] + Types(inner)
  }

  /** The instance at `depth` lives on from `before` to `after`: both have a
      component there and agree on every type from the root down to it. */
  predicate Survives(before: Element, after: Element, depth: nat) {
    depth < |Types(before)| && depth < |Types(after)| && Types(before)[..depth + 1] == Types(after)[..depth + 1]
  }

  function LayoutPrefix(layout: Option<ViewRef>): seq<ComponentType> {
    if layout.Some? then [View(layout.value)] else []
  }

  /** The identity key of each position, read off the configuration and the
      state value alone: the Layout of every node on the path, one resolver
      element per entry descended into, and the view that ends the walk. */
  function Chain(config: Config, value: StateValue): seq<ComponentType> {
    match config
    case Leaf(view) => [View(view)]
    case Node(layout, fallback, states) =>
      if !Truthy(value) then []
      else
        var key := ActiveKey(value);
        LayoutPrefix(layout) +
          if key in states then [Machine] + Chain(states[key], NextValue(value))
          else if fallback.Some? then [View(fallback.value)]
          else []
  }

  /** The chain of types the resolver produces is the configured chain. */
  lemma {:induction false} TypesFollowConfig(config: Config, value: StateValue, props: Props, children: Children)
    ensures Types(At(config, value, props, children)) == Chain(config, value)
  {
    match config
    case Leaf(_) =>
    case Node(layout, fallback, states) =>
      if Truthy(value) {
        var key := ActiveKey(value);
        var child :=
          if key in states then Resolver(At(states[key], NextValue(value), props, children))
          else if fallback.Some? then Render(fallback.value, props, Forwarded(children))
          else Empty;
        var inner :=
          if key in states then [Machine] + Chain(states[key], NextValue(value))
          else if fallback.Some? then [View(fallback.value)]
          else [];
        if key in states {
          TypesFollowConfig(states[key], NextValue(value), props, children);
        }
        assert Types(child) == inner;
        assert Types(At(config, value, props, children)) == LayoutPrefix(layout) + Types(child);
      }
  }

  /** Props and children never decide identity: a change of props alone
      keeps every instance. */
  lemma PropsDoNotAffectIdentity(config: Config, value: StateValue, p1: Props, c1: Children, p2: Props, c2: Children)
    ensures Types(At(config, value, p1, c1)) == Types(At(config, value, p2, c2))
  {
    TypesFollowConfig(config, value, p1, c1);
    TypesFollowConfig(config, value, p2, c2);
  }

  /** Once an instance is replaced, everything below it is replaced too. */
  lemma LostBelowLost(before: Element, after: Element, depth: nat, deeper: nat)
    requires depth <= deeper && !Survives(before, after, depth)
    ensures !Survives(before, after, deeper)
  {
  }

  lemma PrefixCancels(q: seq<ComponentType>, t1: seq<ComponentType>, t2: seq<ComponentType>, i: nat)
    requires i < |t1| && i < |t2|
    ensures (q + t1)[..|q| + i + 1] == (q + t2)[..|q| + i + 1] <==> t1[..i + 1] == t2[..i + 1]
  {
    assert (q + t1)[..|q| + i + 1] == q + t1[..i + 1];
    assert (q + t2)[..|q| + i + 1] == q + t2[..i + 1];
    if q + t1[..i + 1] == q + t2[..i + 1] {
      assert t1[..i + 1] == (q + t1[..i + 1])[|q|..];
      assert t2[..i + 1] == (q + t2[..i + 1])[|q|..];
    }
  }

  /** Two state values whose active keys have the same entry (the same key,
      or two keys configured alike) keep the node's Layout and the resolver
      element below it, and below that an instance survives exactly when it
      survives in the entry's own resolution. */
  lemma DescendingKeepsPrefix(layout: Option<ViewRef>, fallback: Option<ViewRef>, states: map<string, Config>,
                              v1: StateValue, v2: StateValue, props: Props, children: Children)
    requires Truthy(v1) && Truthy(v2) && ActiveKey(v1) in states && ActiveKey(v2) in states
    requires states[ActiveKey(v1)] == states[ActiveKey(v2)]
    ensures var n := |LayoutPrefix(layout)| + 1;
            var before := At(Node(layout, fallback, states), v1, props, children);
            var after := At(Node(layout, fallback, states), v2, props, children);
            var entry := states[ActiveKey(v1)];
            (forall d: nat | d < n :: Survives(before, after, d)) &&
            (forall i: nat :: Survives(before, after, n + i) <==>
                              Survives(At(entry, NextValue(v1), props, children), At(entry, NextValue(v2), props, children), i))
  {
    var q := LayoutPrefix(layout) + [Machine];
    var before := At(Node(layout, fallback, states), v1, props, children);
    var after := At(Node(layout, fallback, states), v2, props, children);
    var entry := states[ActiveKey(v1)];
    var s1 := At(entry, NextValue(v1), props, children);
    var s2 := At(entry, NextValue(v2), props, children);
    assert Types(before) == q + Types(s1);
    assert Types(after) == q + Types(s2);
    forall d: nat | d < |q| ensures Survives(before, after, d) {
      assert Types(before)[..d + 1] == q[..d + 1] == Types(after)[..d + 1];
    }
    forall i: nat ensures Survives(before, after, |q| + i) <==> Survives(s1, s2, i) {
      if i < |Types(s1)| && i < |Types(s2)| {
        PrefixCancels(q, Types(s1), Types(s2), i);
      }
    }
  }

  /** Sibling states whose entries are the same configuration (the same
      component reference, say) and pass the same value down render the
      same tree, so every instance in it survives the transition. */
  lemma SharedEntrySurvives(layout: Option<ViewRef>, fallback: Option<ViewRef>, states: map<string, Config>,
                            v1: StateValue, v2: StateValue, props: Props, children: Children)
    requires Truthy(v1) && Truthy(v2) && ActiveKey(v1) in states && ActiveKey(v2) in states
    requires states[ActiveKey(v1)] == states[ActiveKey(v2)] && NextValue(v1) == NextValue(v2)
    ensures var before := RenderWithStateValue(Node(layout, fallback, states), v1, props, children);
            var after := RenderWithStateValue(Node(layout, fallback, states), v2, props, children);
            before == after && forall d: nat | d < |Types(before)| :: Survives(before, after, d)
  {
  }

  /** Sibling states whose entries are the same component function keep
      that component, whatever each passes down: a bare component ignores the
      rest of the state value, so the two renderings are the same tree. */
  lemma SharedViewSurvives(layout: Option<ViewRef>, fallback: Option<ViewRef>, states: map<string, Config>,
                           v1: StateValue, v2: StateValue, view: ViewRef, props: Props, children: Children)
    requires Truthy(v1) && Truthy(v2) && ActiveKey(v1) in states && ActiveKey(v2) in states
    requires states[ActiveKey(v1)] == Leaf(view) && states[ActiveKey(v2)] == Leaf(view)
    ensures var before := At(Node(layout, fallback, states), v1, props, children);
            var after := At(Node(layout, fallback, states), v2, props, children);
            before == after && forall d: nat | d < |Types(before)| :: Survives(before, after, d)
  {
    LeafRendersDirectly(view, NextValue(v1), props, children);
    LeafRendersDirectly(view, NextValue(v2), props, children);
  }

  /** Sibling states configured with two different component references
      keep the Layout and the resolver element above them, but the view
      itself is a new instance: its local state starts afresh. */
  lemma DistinctViewsRemount(layout: Option<ViewRef>, fallback: Option<ViewRef>, states: map<string, Config>,
                             v1: StateValue, v2: StateValue, a: ViewRef, b: ViewRef, props: Props, children: Children)
    requires Truthy(v1) && Truthy(v2) && ActiveKey(v1) in states && ActiveKey(v2) in states
    requires states[ActiveKey(v1)] == Leaf(a) && states[ActiveKey(v2)] == Leaf(b) && a != b
    ensures var n := |LayoutPrefix(layout)| + 1;
            var before := At(Node(layout, fallback, states), v1, props, children);
            var after := At(Node(layout, fallback, states), v2, props, children);
            Survives(before, after, n - 1) && !Survives(before, after, n)
  {
    var q := LayoutPrefix(layout) + [Machine];
    var before := At(Node(layout, fallback, states), v1, props, children);
    var after := At(Node(layout, fallback, states), v2, props, children);
    TypesFollowConfig(Node(layout, fallback, states), v1, props, children);
    TypesFollowConfig(Node(layout, fallback, states), v2, props, children);
    assert Types(before) == q + [View(a)];
    assert Types(after) == q + [View(b)];
    var n := |q|;
    assert Types(before)[..n] == q == Types(after)[..n];
    assert Types(before)[..n + 1][n] == View(a);
  }

  /** A node's Layout is the same instance for every value that reaches the
      node: moving between its child states never remounts it. */
  lemma LayoutSurvivesChildChanges(layout: ViewRef, fallback: Option<ViewRef>, states: map<string, Config>,
                                   v1: StateValue, v2: StateValue, props: Props, children: Children)
    requires Truthy(v1) && Truthy(v2)
    ensures Survives(At(Node(Some(layout), fallback, states), v1, props, children),
                     At(Node(Some(layout), fallback, states), v2, props, children), 0)
  {
    TypesFollowConfig(Node(Some(layout), fallback, states), v1, props, children);
    TypesFollowConfig(Node(Some(layout), fallback, states), v2, props, children);
    var before := At(Node(Some(layout), fallback, states), v1, props, children);
    var after := At(Node(Some(layout), fallback, states), v2, props, children);
    assert Types(before)[0] == View(layout) == Types(after)[0];
    assert Types(before)[..1] == [View(layout)] == Types(after)[..1];
  }

  /** A resolver element adds one level above its child: an instance
      survives inside it exactly when it survives in the child. This lifts
      the lemmas stated for `At` to the entries a parent descends into and to
      the root rendering. */
  lemma ResolverLifts(before: Element, after: Element, depth: nat)
    ensures Survives(Resolver(before), Resolver(after), depth + 1) <==> Survives(before, after, depth)
  {
    if depth < |Types(before)| && depth < |Types(after)| {
      PrefixCancels([Machine], Types(before), Types(after), depth);
    }
  }
}
