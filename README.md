# machine-component resolver, modelled in Dafny

`createMachineComponent` takes a configuration that assigns React components
to the states of an XState machine and returns a component that renders, for
the machine's current state value, a nested chain of those components. The
work is done by the recursive `MachineComponentAtStateValue`: it walks the
configuration tree and the state value in lock-step and, at every level,
either renders a bare component, renders nothing, descends into the entry for
the active state, or renders the `Fallback`, wrapping the result in the
node's `Layout` when there is one.

This project models that resolver as pure functions over datatypes and proves
what it renders, where the caller's props and children go, and which
component instances React keeps across a change of state.

- `state_value.dfy` (module `StateValues`): the state value as the resolver
  reads it (`null`, a label, or an object kept as its entries in
  `Object.keys` order), JavaScript truthiness of it, the active key and the
  value passed to the next level.
- `machine_component.dfy` (module `MachineComponent`): the configuration
  (`Leaf` for a component function, `Node` for `{ Layout?, Fallback?, states }`),
  the props, the element tree (`Render` for `<View actorRef {...props}>`,
  `Resolver` for the recursive `<MachineComponentAtStateValue>` element and
  what it renders, `Forwarded` for the caller's children, `Empty` for
  `null`/`undefined`), the resolver `At`, the root `RenderWithStateValue`,
  and one lemma per branch of the resolver.
- `identity.dfy` (module `Identity`): the chain of component types the
  rendered tree holds, outermost first, and when an instance at a given depth
  survives from one render to the next (same types from the root down to
  it). The chain is proved equal to one computed from the configuration and
  the state value alone; the lemmas about shared and distinct references,
  Layouts, and descending into the same entry follow from that.
- `scenarios.dfy` (module `Scenarios`): the example in the documentation
  comment of `createMachineComponent` and the configurations and state
  sequences of the test suite, with the trees they render.
- `wrappers.dfy`: `Option`.

Behaviour of the code worth knowing:

- There is no terminal `Component` slot: a structured node has only
  `Layout`, `Fallback` and `states`. A label at a structured node is looked
  up in `states` like any key, and the next level receives `null`.
- A malformed state value is not rejected. An object with several keys
  resolves by its first key (`FirstKeyWins`); an object with no keys is
  looked up under "undefined" (`EmptyMappingActsAsUndefinedLabel`).
- The null check is JavaScript truthiness: the empty label `""` reaching a
  structured node renders nothing, like `null`.
- The first test machine cycles through four states, and its fourth state
  `d` has no entry and no Fallback, so it renders nothing.

Component functions are identified by name (`ViewRef`): two closures with
the same body are two names. The actor handle is a number, extra props a
string map, and the caller's children host content the resolver never looks
into. The subscription to the actor is replaced by the state value as an
argument: one call of `RenderWithStateValue` per observed snapshot
(`Scenarios.Renders`).

## Model

| member | source | states |
|---|---|---|
| `StateValues.Lookup` | packages/machine-component/src/index.tsx:143-146 | a key the object does not hold gives `undefined` (modelled as `Null`); a key it holds gives the value of its first entry with that key; a non-`Null` result is always the value of an entry with that key |
| `StateValues.ActiveEntry` | packages/machine-component/src/index.tsx:133-141 | about `Truthy` (the test at line 133) and `ActiveKey` (lines 138-141): a non-empty object value is truthy, and its active key is its first key and one of its keys |
| `StateValues.NextValueIsLookup` | packages/machine-component/src/index.tsx:143-146 | for every object value, the empty one included, `NextValue` is exactly what the object holds under the active key (`undefined`, modelled as `Null`, for an object without keys) |
| `MachineComponent.At` | packages/machine-component/src/index.tsx:109-176 | every view rendered at every depth receives the same props, the caller's children appear unchanged wherever they appear, and they are the children of exactly the view that ends the walk (the bare component reached, or the Fallback of the node missing the key), never of a Layout |
| `MachineComponent.RenderWithStateValue` | packages/machine-component/src/index.tsx:178-194 | the root renders one resolver element for the observed value, with the same forwarding guarantees |
| `MachineComponent.LeafRendersDirectly` | packages/machine-component/src/index.tsx:122-130 | a bare component is rendered with the props and the caller's children whatever remains of the state value, `null` included |
| `MachineComponent.FalsyValueRendersNothing` | packages/machine-component/src/index.tsx:131-133 | a structured node reached with a falsy value renders nothing, not even its Layout |
| `MachineComponent.EntryIsResolved` | packages/machine-component/src/index.tsx:148-159 | with an entry for the active key the child is the resolver element for that entry at the next value, with the same props and children, whatever the Fallback |
| `MachineComponent.FallbackUnusedWhenEntryExists` | packages/machine-component/src/index.tsx:150-166 | when the active key has an entry, the result is the same with or without a Fallback, even if the entry renders nothing |
| `MachineComponent.MissingEntryFallsBack` | packages/machine-component/src/index.tsx:160-166 | without an entry the child is the Fallback with the props and caller's children, or nothing without a Fallback |
| `MachineComponent.LayoutWrapsChild` | packages/machine-component/src/index.tsx:168-175 | a Layout renders with the props and, as its children, exactly what the node renders without a Layout |
| `MachineComponent.FirstKeyWins` | packages/machine-component/src/index.tsx:137-141 | an object value resolves as the object holding only its first entry: other parallel regions are ignored |
| `MachineComponent.LabelIsMappingToNull` | packages/machine-component/src/index.tsx:138-146 | a non-empty label resolves like an object mapping that label to `null` |
| `MachineComponent.EmptyMappingActsAsUndefinedLabel` | packages/machine-component/src/index.tsx:138-146 | an object without keys resolves like the label "undefined" |
| `Identity.TypesFollowConfig` | packages/machine-component/src/index.tsx:123-175 | the component types along the rendered tree are the configured references along the selected path: each Layout, one resolver element per entry descended into, and the bare component or Fallback that ends the walk |
| `Identity.PropsDoNotAffectIdentity` | packages/machine-component/src/index.tsx:150-159 | props and children never change the component types, so a change of props alone keeps every instance |
| `Identity.LostBelowLost` | packages/machine-component/src/index.spec.tsx:259-268 | once an instance at some depth is replaced, every instance below it is replaced as well |
| `Identity.DescendingKeepsPrefix` | packages/machine-component/src/index.tsx:150-175 | two values whose active keys have the same entry (the same key, or two keys configured alike) keep the node's Layout and resolver element, and below them an instance survives exactly when it survives within that entry |
| `Identity.SharedEntrySurvives` | packages/machine-component/src/index.tsx:150-159 | sibling states with the same configured entry and the same value passed down render the same tree from the root, so every instance survives the transition |
| `Identity.SharedViewSurvives` | packages/machine-component/src/index.tsx:123-128 | sibling states, labels or objects, whose entries are the same component function render the same tree whatever each passes down, so that component and everything above it survive |
| `Identity.DistinctViewsRemount` | packages/machine-component/src/index.spec.tsx:138-148 | sibling states, labels or objects, whose entries are different component functions keep the node's Layout and the resolver element and remount the view itself |
| `Identity.LayoutSurvivesChildChanges` | packages/machine-component/src/index.spec.tsx:242-253 | a node's Layout, at the top of what the node renders, is the same instance for every truthy value that reaches the node, at any depth of the configuration |
| `Identity.ResolverLifts` | packages/machine-component/src/index.tsx:150-159 | below a resolver element an instance survives exactly when it survives in the element's child, so facts about a node carry over to the parent that descends into it and to the root rendering |
| `Scenarios.Renders` | packages/machine-component/src/index.tsx:178-194 | one tree per observed snapshot, each the root rendering of that snapshot |
| `Scenarios.DocumentedRenders` | packages/machine-component/src/index.tsx:76-101 | 'a' renders A; { b: 'c' } the Layout around C; { b: 'd' } the Layout around a view returning null; { b: 'e' } the Layout around the Fallback; 'f' nothing |
| `Scenarios.StatesFieldRenders` | packages/machine-component/src/index.spec.tsx:44-76 | a, b, c render A, B, C; the unconfigured d renders nothing; a again renders A |
| `Scenarios.PropsReachViews` | packages/machine-component/src/index.spec.tsx:78-104 | `foo="bar"` and the children reach A and then B |
| `Scenarios.SharedCounterKeepsCount` | packages/machine-component/src/index.spec.tsx:106-149 | the shared Counter survives a to b; the two inline components at c and d are each remounted |
| `Scenarios.FallbackOnlyForMissingEntries` | packages/machine-component/src/index.spec.tsx:151-175 | the root Fallback renders for the unconfigured b, not for c whose view renders null |
| `Scenarios.NestedLayoutKeepsCount` | packages/machine-component/src/index.spec.tsx:216-269 | A's Layout survives b to c while the inner view is replaced; going to d and back mounts a new Layout, and nothing below it survives either change |
| `Scenarios.NestedFallbacks` | packages/machine-component/src/index.spec.tsx:271-308 | { a: 'c' } renders A's Layout around A's Fallback, d renders the root Fallback |

## Left out

- The `useSelector` subscription in `RenderWithStateValue` (index.tsx:183): the state value is an argument, read once per rendering.
- React reconciliation, hooks and component-local state: an instance's survival is modelled as equal component types from the root down to its position; element keys are not used by the resolver and are not modelled.
- What the configured views themselves render (a view returning `null`, the Counter inside an inline component): the model stops at the element that renders the configured view.
- The type-level computations `NestedStateValue` and `MachineComponentConfig` (index.tsx:28-60): they have no runtime behaviour.
- `ChildComponent` (index.tsx:17): a pass-through component that the resolver does not use.
- Inherited properties in `states[key]`: a key such as "toString" finds a member of `Object.prototype` in JavaScript, while the model's map finds only the configured entries.
- Extra props named `currentConfig` or `currentStateValue` (and `children`, `actorRef`): the resolver destructures these names (index.tsx:110-114), so no view receives them, and at the root a caller's `currentStateValue` or `currentConfig` overrides the observed value or the root configuration because `{...props}` is spread after them (index.tsx:186-189). The model forwards every entry of `Props.extra`, so its contracts about forwarding describe callers whose extra props avoid these names.
- Components that are not functions: a `React.memo` or `forwardRef` component is an object, fails the `typeof` test at index.tsx:123 and is treated as a structured node without `states`, which renders nothing. In the model such a configuration entry is `Node(None, None, map[])`, not `Leaf`; `Leaf` stands only for component functions.
- Parallel states: only the first key of an object value is followed, as in the code.
- The example application and machine (examples/src/App.tsx, examples/src/machine.ts) and the lint and test configuration files. The `Component` field the example application configures is not read by the resolver and is not in the model.
