/**
 * The resolver behind `createMachineComponent`: it walks a configuration tree
 * and a state value in lock-step and returns the element tree React renders.
 */
module MachineComponent {
  import opened Wrappers
  import opened StateValues

  /** A component function. Distinct function objects (two inline closures
      with the same body, say) are distinct references. */
  type ViewRef = string

  /** The actor handle forwarded to every view. */
  type ActorRef = nat

  /** `GenericMachineComponentConfig`: either a bare component, or an object
      with an optional `Layout`, an optional `Fallback` and the `states`
      record. An absent `states` is the empty map: `states?.[key]` finds
      nothing in either case. */
  datatype Config =
    | Leaf(view: ViewRef)
    | Node(layout: Option<ViewRef>, fallback: Option<ViewRef>, states: map<string, Config>)

  /** `actorRef` together with the caller's extra props. */
  datatype Props = Props(actorRef: ActorRef, extra: map<string, string>)

  /** The caller's children: host content the resolver never inspects. */
  type Children = seq<string>

  /** The element tree the resolver returns. */
  datatype Element =
    | Empty                                                   // null, undefined or false
    | Forwarded(content: Children)                            // the caller's children, untouched
    | Render(view: ViewRef, props: Props, children: Element)  // <View actorRef {...props}>{children}</View>
    | Resolver(child: Element)                                // <MachineComponentAtStateValue .../> and what it renders

  /** Every view in `e` receives `props`, and every place the caller's
      children appear holds exactly `children`. */
  predicate PassesThrough(e: Element, props: Props, children: Children) {
    match e
    case Empty => true
    case Forwarded(c) => c == children
    case Render(_, p, inner) => p == props && PassesThrough(inner, props, children)
    case Resolver(inner) => PassesThrough(inner, props, children)
  }

  /** The view whose `children` are the caller's children, if any. */
  function Receiver(e: Element): Option<ViewRef> {
    match e
    case Empty => None
    case Forwarded(_) => None
    case Render(view, _, inner) => if inner.Forwarded? then Some(view) else Receiver(inner)
    case Resolver(inner) => Receiver(inner)
  }

  /** The view that ends the walk and so receives the caller's children: the
      bare component reached, or the Fallback of the node whose states lack
      the active key. Layouts never end the walk. */
  function Terminal(config: Config, value: StateValue): Option<ViewRef> {
    match config
    case Leaf(view) => Some(view)
    case Node(_, fallback, states) =>
      if !Truthy(value) then None
      else if ActiveKey(value) in states then Terminal(states[ActiveKey(value)], NextValue(value))
      else fallback
  }

  /** `MachineComponentAtStateValue`: what the resolver element renders for
      `config` at `value`. */
  function At(config: Config, value: StateValue, props: Props, children: Children): (r: Element)
    ensures PassesThrough(r, props, children)
    ensures Receiver(r) == Terminal(config, value)
  {
    match config
    case Leaf(view) => Render(view, props, Forwarded(children))
    case Node(layout, fallback, states) =>
      if !Truthy(value) then Empty
      else
        var key := ActiveKey(value);
        var child :=
          if key in states then Resolver(At(states[key], NextValue(value), props, children))
          else if fallback.Some? then Render(fallback.value, props, Forwarded(children))
          else Empty;
        if layout.Some? then Render(layout.value, props, child) else child
  }

  /** `RenderWithStateValue`: the component `createMachineComponent` returns,
      rendering the resolver element for one observed state value. */
  function RenderWithStateValue(config: Config, value: StateValue, props: Props, children: Children): (r: Element)
    ensures r.Resolver? && PassesThrough(r, props, children)
    ensures Receiver(r) == Terminal(config, value)
  {
    Resolver(At(config, value, props, children))
  }

  // ---- The branches of the resolver, one lemma each ----

  /** A bare component is rendered with the forwarded props and children,
      whatever is left of the state value, `null` included. */
  lemma LeafRendersDirectly(view: ViewRef, value: StateValue, props: Props, children: Children)
    ensures At(Leaf(view), value, props, children) == Render(view, props, Forwarded(children))
  {
  }

  /** A structured node reached with a falsy value renders nothing; its own
      Layout is not rendered either. */
  lemma FalsyValueRendersNothing(config: Config, value: StateValue, props: Props, children: Children)
    requires config.Node? && !Truthy(value)
    ensures At(config, value, props, children) == Empty
  {
  }

  /** With an entry for the active key, the node's child is the resolver
      element for that entry at the next value, with the same props and
      children; the Fallback plays no part, even if the entry renders null. */
  lemma EntryIsResolved(fallback: Option<ViewRef>, states: map<string, Config>, value: StateValue, props: Props, children: Children)
    requires Truthy(value) && ActiveKey(value) in states
    ensures At(Node(None, fallback, states), value, props, children)
         == Resolver(At(states[ActiveKey(value)], NextValue(value), props, children))
  {
  }

  /** The Fallback is never consulted when the active key has an entry. */
  lemma FallbackUnusedWhenEntryExists(layout: Option<ViewRef>, fallback: Option<ViewRef>, states: map<string, Config>,
                                      value: StateValue, props: Props, children: Children)
    requires Truthy(value) && ActiveKey(value) in states
    ensures At(Node(layout, fallback, states), value, props, children) == At(Node(layout, None, states), value, props, children)
  {
  }

  /** Without an entry for the active key, the child is the Fallback with the
      props and the caller's children, or nothing without a Fallback. */
  lemma MissingEntryFallsBack(fallback: Option<ViewRef>, states: map<string, Config>, value: StateValue, props: Props, children: Children)
    requires Truthy(value) && ActiveKey(value) !in states
    ensures At(Node(None, fallback, states), value, props, children)
         == (if fallback.Some? then Render(fallback.value, props, Forwarded(children)) else Empty)
  {
  }

  /** A Layout wraps exactly what the node would render without it: the
      resolved child becomes the Layout's children, in place of the caller's. */
  lemma LayoutWrapsChild(layout: ViewRef, fallback: Option<ViewRef>, states: map<string, Config>,
                         value: StateValue, props: Props, children: Children)
    requires Truthy(value)
    ensures At(Node(Some(layout), fallback, states), value, props, children)
         == Render(layout, props, At(Node(None, fallback, states), value, props, children))
  {
  }

  /** Only the first key of a mapping matters: the parallel regions behind
      the other keys are ignored. */
  lemma FirstKeyWins(config: Config, entries: seq<Entry>, props: Props, children: Children)
    requires entries != []
    ensures At(config, Compound(entries), props, children) == At(config, Compound([entries[0]]), props, children)
  {
  }

  /** A mapping with a key behaves as the label of its key when the label
      ends the walk, because both hand `null` to the next level. */
  lemma LabelIsMappingToNull(config: Config, key: string, props: Props, children: Children)
    requires key != ""
    ensures At(config, Label(key), props, children) == At(config, Compound([Entry(key, Null)]), props, children)
  {
  }

  /** An object without keys is looked up under "undefined" and passes
      `undefined` down: it resolves like the label "undefined". */
  lemma EmptyMappingActsAsUndefinedLabel(config: Config, props: Props, children: Children)
    ensures At(config, Compound([]), props, children) == At(config, Label("undefined"), props, children)
  {
  }
}
