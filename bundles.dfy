/** The values both capability trackers work on: bundles as the tracker sees
    them, their Liquibase capabilities, the two oracles the tracker consults
    (the capability filter and the migration service), the observable state
    of a tracker, and the first-index search both of its scans use. */
module Bundles {

  datatype Option<+T> = None | Some(value: T)

  /** A value of a capability attribute or of a service property. */
  datatype Value = Str(s: string) | Long(n: int)

  type Attributes = map<string, Value>

  /** One capability of the Liquibase namespace offered by a bundle: its attribute
      map, together with the values it holds under the schema-name and the
      schema-resource attribute keys (None when the attribute is absent). The
      two fields stand for what the tracker reads from the attribute map with
      those keys; the filter sees the attribute map itself. */
  datatype Capability = Capability(attributes: Attributes, schemaName: Option<Value>, schemaResource: Option<string>)

  /** A bundle: its id, its symbolic name (a bundle may have none) and its
      version in string form. Two bundles are the same bundle when these agree. */
  datatype Bundle = Bundle(id: nat, symbolicName: Option<string>, version: string)

  /** One entry of the table of matching bundles: a bundle and the capability it matched with. */
  datatype Entry = Entry(bundle: Bundle, capability: Capability)

  /** A live registration of the wrapped data source, with the service properties it was registered with. */
  datatype Registration = Registration(properties: map<string, Value>)

  /** The capability filter built from the schema expression: does it match these attributes? */
  type Filter = Attributes -> bool

  /** The migration service: does migrating the data source with this bundle's
      schema resource return normally (true) or throw (false)? */
  type Migration = (Bundle, Option<string>) -> bool

  /** What a tracker holds and what it has done to the outside world:
      entries       the table of matching bundles, in insertion order;
      selected      the selected bundle, if any;
      registration  the data source registration, if any;
      registerCalls, unregisterCalls  how many registrations were made and withdrawn;
      migrations    every entry the migration service was called for, in call order. */
  datatype State = State(
    entries: seq<Entry>,
    selected: Option<Bundle>,
    registration: Option<Registration>,
    registerCalls: nat,
    unregisterCalls: nat,
    migrations: seq<Entry>)

  /** How an event handler ends: normally, or by a NullPointerException. */
  datatype Outcome = Completed | NullDereference

  /** A freshly constructed tracker. */
  const Initial := State([], None, None, 0, 0, [])

  /** The position of the first element of s that satisfies p, if there is one. */
  function FirstIndex<T>(s: seq<T>, p: T -> bool): (r: Option<nat>)
    ensures r.Some? ==> r.value < |s| && p(s[r.value])
    ensures r.Some? ==> forall j :: 0 <= j < r.value ==> !p(s[j])
    ensures r.None? ==> forall j :: 0 <= j < |s| ==> !p(s[j])
    decreases |s|
  {
    if s == [] then None
    else if p(s[0]) then Some(0)
    else match FirstIndex(s[1..], p)
      case None => None
      case Some(k) => Some(k + 1)
  }

  /** Any index that satisfies p and is preceded only by elements that do not is the one FirstIndex finds. */
  lemma FirstIndexUnique<T>(s: seq<T>, p: T -> bool, k: nat)
    requires k < |s| && p(s[k])
    requires forall j :: 0 <= j < k ==> !p(s[j])
    ensures FirstIndex(s, p) == Some(k)
  {
  }

  /** Two predicates that agree on every element find the same first index. */
  lemma FirstIndexAgree<T>(s: seq<T>, p: T -> bool, q: T -> bool)
    requires forall i :: 0 <= i < |s| ==> p(s[i]) == q(s[i])
    ensures FirstIndex(s, p) == FirstIndex(s, q)
  {
    match FirstIndex(s, q)
    case None =>
    case Some(k) => FirstIndexUnique(s, p, k);
  }

  /** The filter applied to a capability's attributes. */
  function Matching(filter: Filter): Capability -> bool
  {
    (c: Capability) => filter(c.attributes)
  }

  /** The migration service applied to an entry's bundle and schema resource. */
  function Migrates(migrate: Migration): Entry -> bool
  {
    (e: Entry) => migrate(e.bundle, e.capability.schemaResource)
  }

  /** The first capability, in list order, whose attributes the filter matches. */
  function FirstMatchingCapability(caps: seq<Capability>, filter: Filter): (r: Option<Capability>)
    ensures r.None? <==> forall j :: 0 <= j < |caps| ==> !filter(caps[j].attributes)
    ensures r.Some? ==> exists k :: 0 <= k < |caps| && caps[k] == r.value && filter(caps[k].attributes)
                                    && forall j :: 0 <= j < k ==> !filter(caps[j].attributes)
  {
    match FirstIndex(caps, Matching(filter))
    case None => None
    case Some(k) => Some(caps[k])
  }
}
