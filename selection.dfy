/** The state machine of the data source tracker (LiquibaseCapabilityTracker),
    stated on values: what each of its steps does to the table of matching
    bundles, the selection, the registration and the migration calls, and the
    invariant every event keeps. The class in liquibase_capability_tracker.dfy
    is proved to do exactly these steps. */
module Selection {
  import opened Bundles
  import opened CapabilityTable
  import opened ServiceProperties

  /** A candidate is taken when its migration returns normally and its data
      source can then be registered (every property value is present). */
  function Accepts(cfg: Config, migrate: Migration): Entry -> bool
  {
    (e: Entry) => migrate(e.bundle, e.capability.schemaResource) && Properties(cfg, e).Some?
  }

  /** The tracker's invariant: the table is a map; a bundle is selected exactly
      when a registration is live; registrations made and withdrawn differ by
      the live one; and the selected bundle is a key of the table whose entry
      the live registration describes. */
  ghost predicate Valid(cfg: Config, s: State)
  {
    && DistinctKeys(s.entries)
    && (s.selected.Some? <==> s.registration.Some?)
    && s.registerCalls == s.unregisterCalls + (if s.registration.Some? then 1 else 0)
    && (s.selected.Some? ==>
          && HasKey(s.entries, s.selected.value)
          && Properties(cfg, Entry(s.selected.value, Get(s.entries, s.selected.value).value))
             == Some(s.registration.value.properties))
  }

  /** dropBundle: remove b from the table; if b was selected, clear the
      selection and unregister its registration. */
  function Drop(s: State, b: Bundle): State
  {
    var t := s.(entries := Remove(s.entries, b));
    if s.selected == Some(b) then t.(selected := None, registration := None, unregisterCalls := s.unregisterCalls + 1)
    else t
  }

  /** selectBundleIfNecessary: nothing when a bundle is selected; otherwise the
      table is scanned in insertion order and the first candidate taken is
      selected and registered. Every candidate up to it was migrated. */
  function SelectIfNecessary(cfg: Config, s: State, migrate: Migration): State
  {
    if s.selected.Some? then s
    else match FirstIndex(s.entries, Accepts(cfg, migrate))
      case None => s.(migrations := s.migrations + s.entries)
      case Some(k) =>
        s.(selected := Some(s.entries[k].bundle),
           registration := Some(Registration(Properties(cfg, s.entries[k]).value)),
           registerCalls := s.registerCalls + 1,
           migrations := s.migrations + s.entries[..k + 1])
  }

  /** The table update of handleBundleChange: b dropped, then put back with its
      first matching capability when it has one. */
  function Rematch(s: State, b: Bundle, caps: seq<Capability>, filter: Filter): State
  {
    match FirstMatchingCapability(caps, filter)
    case None => s
    case Some(c) => s.(entries := Put(s.entries, b, c))
  }

  /** handleBundleChange, run for an added or a modified bundle. */
  function HandleChange(cfg: Config, filter: Filter, s: State, b: Bundle, caps: seq<Capability>, migrate: Migration): State
  {
    var t := Rematch(Drop(s, b), b, caps, filter);
    if t.selected.None? then SelectIfNecessary(cfg, t, migrate) else t
  }

  /** removedBundle. */
  function Removed(cfg: Config, s: State, b: Bundle, migrate: Migration): State
  {
    SelectIfNecessary(cfg, Drop(s, b), migrate)
  }

  /** One bundle event, with the capabilities the bundle offers at that moment
      and the outcome the migration service would give for each candidate. */
  datatype Event =
    | BundleAdded(bundle: Bundle, caps: seq<Capability>, migrate: Migration)
    | BundleModified(bundle: Bundle, caps: seq<Capability>, migrate: Migration)
    | BundleRemoved(bundle: Bundle, migrate: Migration)

  function Step(cfg: Config, filter: Filter, s: State, ev: Event): State
  {
    match ev
    case BundleAdded(b, caps, migrate) => HandleChange(cfg, filter, s, b, caps, migrate)
    case BundleModified(b, caps, migrate) => HandleChange(cfg, filter, s, b, caps, migrate)
    case BundleRemoved(b, migrate) => Removed(cfg, s, b, migrate)
  }

  /** The events delivered one at a time, in order. */
  function Run(cfg: Config, filter: Filter, s: State, events: seq<Event>): State
    decreases |events|
  {
    if events == [] then s else Run(cfg, filter, Step(cfg, filter, s, events[0]), events[1..])
  }

  // ---------------------------------------------------------------------------
  // dropBundle

  /** dropBundle removes b and only b, keeps the order of the other keys, and
      touches the selection and the registration only when b was selected. */
  lemma DropSpec(s: State, b: Bundle)
    ensures forall e :: e in Drop(s, b).entries <==> e in s.entries && e.bundle != b
    ensures forall x, y :: x != b && y != b ==> (Precedes(Drop(s, b).entries, x, y) <==> Precedes(s.entries, x, y))
    ensures s.selected == Some(b) ==>
              && Drop(s, b).selected.None? && Drop(s, b).registration.None?
              && Drop(s, b).unregisterCalls == s.unregisterCalls + 1
    ensures s.selected != Some(b) ==>
              && Drop(s, b).selected == s.selected && Drop(s, b).registration == s.registration
              && Drop(s, b).unregisterCalls == s.unregisterCalls
    ensures Drop(s, b).registerCalls == s.registerCalls && Drop(s, b).migrations == s.migrations
  {
    forall x, y | x != b && y != b
      ensures Precedes(Drop(s, b).entries, x, y) <==> Precedes(s.entries, x, y)
    {
      RemovePreservesOrder(s.entries, b, x, y);
    }
  }

  lemma ValidDrop(cfg: Config, s: State, b: Bundle)
    requires Valid(cfg, s)
    ensures Valid(cfg, Drop(s, b))
  {
    if s.selected.Some? && s.selected.value != b {
      var x := s.selected.value;
      HasKeyRemove(s.entries, b, x);
      GetRemove(s.entries, b, x);
    }
  }

  // ---------------------------------------------------------------------------
  // selectBundleIfNecessary

  /** The scan is first-success in table order: with a bundle selected it does
      nothing; otherwise it selects the first candidate whose migration and
      registration succeed, after migrating exactly the candidates before it,
      and registers exactly once; when every candidate fails it migrates them
      all and leaves nothing selected and nothing registered. */
  lemma SelectFirstSuccess(cfg: Config, s: State, migrate: Migration)
    ensures s.selected.Some? ==> SelectIfNecessary(cfg, s, migrate) == s
    ensures SelectIfNecessary(cfg, s, migrate).entries == s.entries
    ensures SelectIfNecessary(cfg, s, migrate).unregisterCalls == s.unregisterCalls
    ensures s.selected.None? && SelectIfNecessary(cfg, s, migrate).selected.Some? ==>
              var r := SelectIfNecessary(cfg, s, migrate);
              exists k :: 0 <= k < |s.entries|
                && s.entries[k].bundle == r.selected.value
                && migrate(s.entries[k].bundle, s.entries[k].capability.schemaResource)
                && Properties(cfg, s.entries[k]) == Some(r.registration.value.properties)
                && (forall j :: 0 <= j < k ==> !Accepts(cfg, migrate)(s.entries[j]))
                && r.migrations == s.migrations + s.entries[..k + 1]
                && r.registerCalls == s.registerCalls + 1
    ensures s.selected.None? && SelectIfNecessary(cfg, s, migrate).selected.None? ==>
              var r := SelectIfNecessary(cfg, s, migrate);
              && (forall j :: 0 <= j < |s.entries| ==> !Accepts(cfg, migrate)(s.entries[j]))
              && r.migrations == s.migrations + s.entries
              && r.registration == s.registration && r.registerCalls == s.registerCalls
  {
    if s.selected.None? {
      match FirstIndex(s.entries, Accepts(cfg, migrate))
      case None =>
      case Some(k) =>
        assert Accepts(cfg, migrate)(s.entries[k]);
    }
  }

  lemma ValidSelect(cfg: Config, s: State, migrate: Migration)
    requires Valid(cfg, s)
    ensures Valid(cfg, SelectIfNecessary(cfg, s, migrate))
  {
    if s.selected.None? {
      match FirstIndex(s.entries, Accepts(cfg, migrate))
      case None =>
      case Some(k) =>
        assert Accepts(cfg, migrate)(s.entries[k]);
        GetOfMember(s.entries, s.entries[k]);
    }
  }

  // ---------------------------------------------------------------------------
  // handleBundleChange and the events

  /** After handleBundleChange(b), b is a key exactly when it offers a matching
      capability, and then it is the last entry, after every other key; the
      other keys stay, and keep their relative order. */
  lemma HandleChangeTable(cfg: Config, filter: Filter, s: State, b: Bundle, caps: seq<Capability>, migrate: Migration)
    ensures var t := HandleChange(cfg, filter, s, b, caps, migrate).entries;
      && (HasKey(t, b) <==> FirstMatchingCapability(caps, filter).Some?)
      && (FirstMatchingCapability(caps, filter).Some? ==>
            t == Remove(s.entries, b) + [Entry(b, FirstMatchingCapability(caps, filter).value)])
      && (forall x :: x != b ==> (HasKey(t, x) <==> HasKey(s.entries, x)))
      && (forall x, y :: x != b && y != b ==> (Precedes(t, x, y) <==> Precedes(s.entries, x, y)))
      && (FirstMatchingCapability(caps, filter).Some? ==> forall x :: x != b && HasKey(t, x) ==> Precedes(t, x, b))
  {
    var m := Rematch(Drop(s, b), b, caps, filter);
    SelectFirstSuccess(cfg, m, migrate);
    ReinsertTable(s.entries, b, FirstMatchingCapability(caps, filter));
    assert HandleChange(cfg, filter, s, b, caps, migrate).entries
           == Reinserted(s.entries, b, FirstMatchingCapability(caps, filter));
  }

  /** The table of handleBundleChange: b removed, then appended with c if it matched. */
  function Reinserted(t: seq<Entry>, b: Bundle, c: Option<Capability>): seq<Entry>
  {
    match c
    case None => Remove(t, b)
    case Some(cap) => Remove(t, b) + [Entry(b, cap)]
  }

  lemma ReinsertTable(t: seq<Entry>, b: Bundle, c: Option<Capability>)
    ensures c.Some? ==> Put(Remove(t, b), b, c.value) == Reinserted(t, b, c)
    ensures HasKey(Reinserted(t, b, c), b) <==> c.Some?
    ensures forall x :: x != b ==> (HasKey(Reinserted(t, b, c), x) <==> HasKey(t, x))
    ensures forall x, y :: x != b && y != b ==> (Precedes(Reinserted(t, b, c), x, y) <==> Precedes(t, x, y))
    ensures c.Some? ==> forall x :: x != b && HasKey(Reinserted(t, b, c), x) ==> Precedes(Reinserted(t, b, c), x, b)
  {
    var d := Remove(t, b);
    HasKeyRemove(t, b, b);
    forall x | x != b ensures HasKey(Reinserted(t, b, c), x) <==> HasKey(t, x) {
      HasKeyRemove(t, b, x);
      if c.Some? { HasKeyAppend(d, Entry(b, c.value), x); }
    }
    if c.Some? { HasKeyAppend(d, Entry(b, c.value), b); }
    forall x, y | x != b && y != b ensures Precedes(Reinserted(t, b, c), x, y) <==> Precedes(t, x, y) {
      RemovePreservesOrder(t, b, x, y);
      if c.Some? { AppendOrder(d, Entry(b, c.value), x, y); }
    }
    if c.Some? {
      forall x | x != b && HasKey(Reinserted(t, b, c), x) ensures Precedes(Reinserted(t, b, c), x, b) {
        HasKeyAppend(d, Entry(b, c.value), x);
        AppendOrder(d, Entry(b, c.value), x, x);
      }
    }
  }

  /** An added or modified bundle triggers a scan only when, after dropping it,
      nothing is selected, and then at least the first candidate of the table
      is migrated; a removal always calls the scan, which then does nothing if
      a selection survives. */
  lemma ScanOnlyWhenUnselected(cfg: Config, filter: Filter, s: State, b: Bundle, caps: seq<Capability>, migrate: Migration)
    ensures Drop(s, b).selected.Some? ==>
              && HandleChange(cfg, filter, s, b, caps, migrate) == Rematch(Drop(s, b), b, caps, filter)
              && HandleChange(cfg, filter, s, b, caps, migrate).migrations == s.migrations
              && HandleChange(cfg, filter, s, b, caps, migrate).selected == s.selected
              && HandleChange(cfg, filter, s, b, caps, migrate).registration == s.registration
    ensures Drop(s, b).selected.Some? ==> Removed(cfg, s, b, migrate) == Drop(s, b)
    ensures Drop(s, b).selected.None? && Rematch(Drop(s, b), b, caps, filter).entries != [] ==>
              var t := Rematch(Drop(s, b), b, caps, filter).entries;
              var r := HandleChange(cfg, filter, s, b, caps, migrate).migrations;
              && |s.migrations| < |r| <= |s.migrations| + |t|
              && r == s.migrations + t[..|r| - |s.migrations|]
  {
    var m := Rematch(Drop(s, b), b, caps, filter);
    if Drop(s, b).selected.None? && m.entries != [] {
      assert m.selected.None? && m.migrations == s.migrations;
      SelectFirstSuccess(cfg, m, migrate);
      var r := SelectIfNecessary(cfg, m, migrate);
      if r.selected.None? {
        assert m.entries[..|m.entries|] == m.entries;
      } else {
        var k :| 0 <= k < |m.entries| && r.migrations == s.migrations + m.entries[..k + 1];
        assert |r.migrations| - |s.migrations| == k + 1;
      }
    }
  }

  /** Dropping b and putting it back with its matching capability keeps the invariant. */
  lemma ValidRematchDropped(cfg: Config, filter: Filter, s: State, b: Bundle, caps: seq<Capability>)
    requires Valid(cfg, s)
    ensures Valid(cfg, Rematch(Drop(s, b), b, caps, filter))
  {
    var d := Drop(s, b);
    ValidDrop(cfg, s, b);
    HasKeyRemove(s.entries, b, b);
    if FirstMatchingCapability(caps, filter).Some? {
      var e := Entry(b, FirstMatchingCapability(caps, filter).value);
      PutNewKeepsDistinct(d.entries, b, e.capability);
      if d.selected.Some? {
        var x := d.selected.value;
        GetAppend(d.entries, e, x);
        HasKeyAppend(d.entries, e, x);
      }
    }
  }

  lemma ValidHandleChange(cfg: Config, filter: Filter, s: State, b: Bundle, caps: seq<Capability>, migrate: Migration)
    requires Valid(cfg, s)
    ensures Valid(cfg, HandleChange(cfg, filter, s, b, caps, migrate))
  {
    ValidRematchDropped(cfg, filter, s, b, caps);
    ValidSelect(cfg, Rematch(Drop(s, b), b, caps, filter), migrate);
  }

  lemma ValidRemoved(cfg: Config, s: State, b: Bundle, migrate: Migration)
    requires Valid(cfg, s)
    ensures Valid(cfg, Removed(cfg, s, b, migrate))
  {
    ValidDrop(cfg, s, b);
    ValidSelect(cfg, Drop(s, b), migrate);
  }

  /** Over any sequence of events the invariant holds: the selected bundle is
      always a key of the table and at most one registration is ever live. */
  lemma {:induction false} RunKeepsValid(cfg: Config, filter: Filter, s: State, events: seq<Event>)
    requires Valid(cfg, s)
    ensures Valid(cfg, Run(cfg, filter, s, events))
    ensures var r := Run(cfg, filter, s, events);
              r.registerCalls - r.unregisterCalls <= 1
    decreases |events|
  {
    if events != [] {
      ValidStep(cfg, filter, s, events[0]);
      RunKeepsValid(cfg, filter, Step(cfg, filter, s, events[0]), events[1..]);
    }
  }

  lemma ValidStep(cfg: Config, filter: Filter, s: State, ev: Event)
    requires Valid(cfg, s)
    ensures Valid(cfg, Step(cfg, filter, s, ev))
  {
    match ev
    case BundleAdded(b, caps, migrate) => ValidHandleChange(cfg, filter, s, b, caps, migrate);
    case BundleModified(b, caps, migrate) => ValidHandleChange(cfg, filter, s, b, caps, migrate);
    case BundleRemoved(b, migrate) => ValidRemoved(cfg, s, b, migrate);
  }

  /** A new tracker satisfies the invariant. */
  lemma InitialValid(cfg: Config)
    ensures Valid(cfg, Initial)
  {
  }

  // ---------------------------------------------------------------------------
  // Scenarios

  /** Candidates [P1, P2] where P1's migration fails and P2's succeeds: P2 is
      selected, P1 then P2 were migrated, and one registration was made, whose
      properties name P2. */
  lemma FallbackToSecondCandidate(cfg: Config, s: State, migrate: Migration, p1: Entry, p2: Entry)
    requires s.selected.None? && s.entries == [p1, p2]
    requires !migrate(p1.bundle, p1.capability.schemaResource)
    requires migrate(p2.bundle, p2.capability.schemaResource) && Publishable(p2)
    ensures var r := SelectIfNecessary(cfg, s, migrate);
      && r.selected == Some(p2.bundle)
      && r.migrations == s.migrations + [p1, p2]
      && r.registerCalls == s.registerCalls + 1
      && r.registration == Some(Registration(Properties(cfg, p2).value))
      && r.registration.value.properties[BundleIdKey] == Long(p2.bundle.id)
  {
    FirstIndexUnique(s.entries, Accepts(cfg, migrate), 1);
    assert s.entries[..2] == [p1, p2];
    PropertiesContents(cfg, p2);
  }

  /** When no bundle ever offers a matching capability, a new tracker never
      migrates and never registers, whatever the events. */
  lemma {:induction false} NoMatchNoMigration(cfg: Config, filter: Filter, s: State, events: seq<Event>)
    requires s.entries == [] && s.selected.None? && s.registration.None?
    requires forall i :: 0 <= i < |events| && !events[i].BundleRemoved? ==>
               forall c :: c in events[i].caps ==> !filter(c.attributes)
    ensures var r := Run(cfg, filter, s, events);
      && r.entries == [] && r.selected.None? && r.registration.None?
      && r.migrations == s.migrations && r.registerCalls == s.registerCalls
    decreases |events|
  {
    if events != [] {
      var ev := events[0];
      var s' := Step(cfg, filter, s, ev);
      if !ev.BundleRemoved? {
        assert forall c :: c in ev.caps ==> !filter(c.attributes);
        assert FirstMatchingCapability(ev.caps, filter).None?;
      }
      assert s'.entries == [] && s'.selected.None? && s'.registration.None?;
      assert s'.migrations == s.migrations + [];
      forall i | 0 <= i < |events[1..]| && !events[1..][i].BundleRemoved?
        ensures forall c :: c in events[1..][i].caps ==> !filter(c.attributes)
      {
        assert events[1..][i] == events[i + 1];
      }
      NoMatchNoMigration(cfg, filter, s', events[1..]);
    }
  }
}
