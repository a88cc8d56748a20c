/**
 * The state value an XState actor reports, as the resolver reads it: `null`
 * (or `undefined`), a string label, or an object whose keys are the active
 * child states. The resolver only ever inspects the first key of an object,
 * so the object is kept as its entries in `Object.keys` order.
 */
module StateValues {

  datatype StateValue =
    | Null
    | Label(name: string)
    | Compound(entries: seq<Entry>)

  datatype Entry = Entry(key: string, value: StateValue)

  /** JavaScript truthiness of the value, the test `!currentStateValue`:
      `null` and the empty string are falsy, every object is truthy. */
  predicate Truthy(v: StateValue) {
    match v
    case Null => false
    case Label(name) => name != ""
    case Compound(_) => true
  }

  /** The property key `states` is indexed with: the label itself, or the
      first key of the object. `Object.keys({})[0]` is `undefined`, and a
      property lookup with `undefined` converts it to the key "undefined". */
  function ActiveKey(v: StateValue): string
    requires Truthy(v)
  {
    match v
    case Label(name) => name
    case Compound(entries) => if entries == [] then "undefined" else entries[0].key
  }

  /** The state value handed to the next level: `null` below a label, the
      value under the active key below an object (`undefined`, which the
      resolver treats as `null`, when the object has no keys). */
  function NextValue(v: StateValue): StateValue
    requires Truthy(v)
  {
    match v
    case Label(_) => Null
    case Compound(entries) => if entries == [] then Null else entries[0].value
  }

  /** The value an object holds under `key`, as `currentStateValue[key]`
      reads it; `Null` stands for `undefined`. */
  function Lookup(entries: seq<Entry>, key: string): (r: StateValue)
    ensures r != Null ==> exists i :: 0 <= i < |entries| && entries[i].key == key && entries[i].value == r
    ensures (forall i | 0 <= i < |entries| :: entries[i].key != key) ==> r == Null
    ensures forall i | 0 <= i < |entries| && entries[i].key == key && (forall j | 0 <= j < i :: entries[j].key != key) ::
              r == entries[i].value
  {
    if entries == [] then Null
    else if entries[0].key == key then entries[0].value
    else Lookup(entries[1..], key)
  }

  /** The active key of a mapping is one of its keys, and the next value is
      exactly what the mapping holds under that key. */
  lemma ActiveEntry(v: StateValue)
    requires v.Compound? && v.entries != []
    ensures Truthy(v)
    ensures ActiveKey(v) == v.entries[0].key
    ensures exists i :: 0 <= i < |v.entries| && v.entries[i].key == ActiveKey(v)
  {
    assert v.entries[0].key == ActiveKey(v);
  }

  /** For every object, the empty one included, the value passed down is
      `currentStateValue[key]` for the active key: `undefined` (`Null`) for an
      object without keys. */
  lemma NextValueIsLookup(v: StateValue)
    requires v.Compound?
    ensures Truthy(v)
    ensures Lookup(v.entries, ActiveKey(v)) == NextValue(v)
  {
  }
}
