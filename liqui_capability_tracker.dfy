/** The earlier bundle tracker of the Liquibase component
    (LiquiCapabilityTracker). It reacts to the same bundle events, but it never
    puts anything into its table of matching bundles and never registers the
    data source: the capability loop of handleBundleChange does nothing with a
    match, and no code assigns the registration field. The value-level steps
    here follow the code line by line; the lemmas show what they amount to from
    a fresh tracker (nothing is ever selected, migrated or registered), and
    that dropping a selected bundle would dereference the null registration. */
module LiquiCapabilityTracker {
  import opened Bundles
  import opened CapabilityTable
  import Selection

  /** The states this tracker can be in: its table is a map, it never holds a
      registration and never calls the registry, and a selected bundle is a key. */
  ghost predicate Consistent(s: State)
  {
    && DistinctKeys(s.entries)
    && s.registration.None? && s.registerCalls == 0 && s.unregisterCalls == 0
    && (s.selected.Some? ==> HasKey(s.entries, s.selected.value))
  }

  /** selectBundleFromAvailables: migrate with the entries in insertion order
      until one returns normally, and select it; no registration is made. */
  function SelectFromAvailables(s: State, migrate: Migration): State
  {
    match FirstIndex(s.entries, Migrates(migrate))
    case None => s.(migrations := s.migrations + s.entries)
    case Some(k) => s.(selected := Some(s.entries[k].bundle), migrations := s.migrations + s.entries[..k + 1])
  }

  /** dropBundle: forget b; if b was selected, clear the selection, withdraw the
      registration and select again from the rest. With no registration the
      unregister call throws, and the rest of that branch is not reached. */
  function Drop(s: State, b: Bundle, migrate: Migration): (State, Outcome)
  {
    var t := s.(entries := Remove(s.entries, b));
    if s.selected != Some(b) then (t, Completed)
    else if s.registration.None? then (t.(selected := None), NullDereference)
    else (SelectFromAvailables(t.(selected := None, registration := None, unregisterCalls := s.unregisterCalls + 1), migrate),
          Completed)
  }

  /** Every event is a drop of its bundle: handleBundleChange drops the bundle
      and then only evaluates the filter on each capability. */
  function Step(s: State, ev: Selection.Event): (State, Outcome)
  {
    Drop(s, ev.bundle, ev.migrate)
  }

  /** The events delivered one at a time, with the outcome of each. */
  function Run(s: State, events: seq<Selection.Event>): (State, seq<Outcome>)
    decreases |events|
  {
    if events == [] then (s, [])
    else
      var (t, o) := Step(s, events[0]);
      var (u, os) := Run(t, events[1..]);
      (u, [o] + os)
  }

  /** The scan selects the first entry whose migration returns normally, after
      migrating exactly the entries up to it; when every migration throws it
      migrates them all and leaves the selection as it was. The table and the registration
      are never touched. */
  lemma SelectFirstSuccess(s: State, migrate: Migration)
    ensures var r := SelectFromAvailables(s, migrate);
      && r.entries == s.entries && r.registration == s.registration
      && r.registerCalls == s.registerCalls && r.unregisterCalls == s.unregisterCalls
    ensures (exists j :: 0 <= j < |s.entries| && migrate(s.entries[j].bundle, s.entries[j].capability.schemaResource)) ==>
      var r := SelectFromAvailables(s, migrate);
      exists k :: 0 <= k < |s.entries|
        && r.selected == Some(s.entries[k].bundle)
        && migrate(s.entries[k].bundle, s.entries[k].capability.schemaResource)
        && (forall j :: 0 <= j < k ==> !migrate(s.entries[j].bundle, s.entries[j].capability.schemaResource))
        && r.migrations == s.migrations + s.entries[..k + 1]
    ensures (forall j :: 0 <= j < |s.entries| ==> !migrate(s.entries[j].bundle, s.entries[j].capability.schemaResource)) ==>
      var r := SelectFromAvailables(s, migrate);
      r.selected == s.selected && r.migrations == s.migrations + s.entries
  {
    match FirstIndex(s.entries, Migrates(migrate))
    case None =>
      forall j | 0 <= j < |s.entries|
        ensures !migrate(s.entries[j].bundle, s.entries[j].capability.schemaResource)
      {
        assert !Migrates(migrate)(s.entries[j]);
      }
    case Some(k) =>
      assert Migrates(migrate)(s.entries[k]);
      forall j | 0 <= j < k
        ensures !migrate(s.entries[j].bundle, s.entries[j].capability.schemaResource)
      {
        assert !Migrates(migrate)(s.entries[j]);
      }
  }

  /** The scan keeps the tracker consistent. */
  lemma ConsistentSelect(s: State, migrate: Migration)
    requires Consistent(s)
    ensures Consistent(SelectFromAvailables(s, migrate))
  {
    match FirstIndex(s.entries, Migrates(migrate))
    case None =>
    case Some(k) =>
  }

  /** dropBundle removes b and only b, keeps the others in order, never adds an
      entry, and keeps the tracker consistent; when b was the selected bundle it
      clears the selection and throws, because no registration exists. */
  lemma ConsistentDrop(s: State, b: Bundle, migrate: Migration)
    requires Consistent(s)
    ensures var (r, o) := Drop(s, b, migrate);
      && Consistent(r)
      && (forall e :: e in r.entries <==> e in s.entries && e.bundle != b)
      && (forall x, y :: x != b && y != b ==> (Precedes(r.entries, x, y) <==> Precedes(s.entries, x, y)))
      && r.migrations == s.migrations
      && (o == NullDereference <==> s.selected == Some(b))
      && (s.selected == Some(b) ==> r.selected.None?)
      && (s.selected != Some(b) ==> r.selected == s.selected)
  {
    HasKeyRemove(s.entries, b, b);
    if s.selected.Some? {
      HasKeyRemove(s.entries, b, s.selected.value);
    }
    forall x, y | x != b && y != b
      ensures Precedes(Remove(s.entries, b), x, y) <==> Precedes(s.entries, x, y)
    {
      RemovePreservesOrder(s.entries, b, x, y);
    }
  }

  /** Over any sequence of events the tracker stays consistent, its table never
      gains an entry, and no migration is started. */
  lemma {:induction false} RunKeepsConsistent(s: State, events: seq<Selection.Event>)
    requires Consistent(s)
    ensures var (r, os) := Run(s, events);
      && Consistent(r) && |os| == |events|
      && (forall e :: e in r.entries ==> e in s.entries)
      && r.migrations == s.migrations
    decreases |events|
  {
    if events != [] {
      var ev := events[0];
      ConsistentDrop(s, ev.bundle, ev.migrate);
      RunKeepsConsistent(Step(s, ev).0, events[1..]);
    }
  }

  /** A fresh tracker stays as it was over any sequence of events: nothing is
      ever kept, selected, migrated or registered, and every event completes. */
  lemma {:induction false} InitialIsPermanent(events: seq<Selection.Event>)
    ensures Run(Initial, events).0 == Initial
    ensures forall i :: 0 <= i < |Run(Initial, events).1| ==> Run(Initial, events).1[i] == Completed
    ensures |Run(Initial, events).1| == |events|
    decreases |events|
  {
    if events != [] {
      InitialIsPermanent(events[1..]);
    }
  }

  class Tracker {
    /** The filter handleBundleChange evaluates on each capability and never
        acts on; nothing in the model reads it. */
    const filter: Filter

    /** The LinkedHashMap of matching bundles, in insertion order. */
    var matchingBundles: seq<Entry>
    var selectedBundle: Option<Bundle>
    var dataSourceSR: Option<Registration>

    /** Every entry the migration service was called for, in call order. */
    ghost var migrations: seq<Entry>

    ghost function Snapshot(): State
      reads this
    {
      State(matchingBundles, selectedBundle, dataSourceSR, 0, 0, migrations)
    }

    ghost predicate Valid()
      reads this
    {
      Consistent(Snapshot())
    }

    constructor (filter: Filter)
      ensures this.filter == filter
      ensures Snapshot() == Initial && Valid()
    {
      this.filter := filter;
      matchingBundles := [];
      selectedBundle := None;
      dataSourceSR := None;
      migrations := [];
    }

    /** A bundle became active: it is handled as a change and tracked, unless
        the handler throws. */
    method AddingBundle(bundle: Bundle, caps: seq<Capability>, migrate: Migration)
      returns (outcome: Outcome, tracked: Option<Bundle>)
      requires Valid()
      modifies this
      ensures Valid()
      ensures (Snapshot(), outcome) == Drop(old(Snapshot()), bundle, migrate)
      ensures tracked == (if outcome == Completed then Some(bundle) else None)
    {
      outcome := HandleBundleChange(bundle, caps, migrate);
      tracked := if outcome == Completed then Some(bundle) else None;
    }

    method ModifiedBundle(bundle: Bundle, caps: seq<Capability>, migrate: Migration) returns (outcome: Outcome)
      requires Valid()
      modifies this
      ensures Valid()
      ensures (Snapshot(), outcome) == Drop(old(Snapshot()), bundle, migrate)
    {
      outcome := HandleBundleChange(bundle, caps, migrate);
    }

    method RemovedBundle(bundle: Bundle, migrate: Migration) returns (outcome: Outcome)
      requires Valid()
      modifies this
      ensures Valid()
      ensures (Snapshot(), outcome) == Drop(old(Snapshot()), bundle, migrate)
    {
      outcome := DropBundle(bundle, migrate);
    }

    /** Drop the bundle; the loop over its capabilities that follows only
        evaluates the filter and changes nothing. */
    method HandleBundleChange(bundle: Bundle, caps: seq<Capability>, migrate: Migration) returns (outcome: Outcome)
      requires Valid()
      modifies this
      ensures Valid()
      ensures (Snapshot(), outcome) == Drop(old(Snapshot()), bundle, migrate)
    {
      outcome := DropBundle(bundle, migrate);
    }

    /** Forget the bundle; if it was the selected one, clear the selection and
        call unregister on the registration, which is always null here. */
    method DropBundle(bundle: Bundle, migrate: Migration) returns (outcome: Outcome)
      requires Valid()
      modifies this
      ensures Valid()
      ensures (Snapshot(), outcome) == Drop(old(Snapshot()), bundle, migrate)
    {
      ConsistentDrop(Snapshot(), bundle, migrate);
      matchingBundles := Remove(matchingBundles, bundle);
      outcome := Completed;
      if selectedBundle == Some(bundle) {
        selectedBundle := None;
        // The registration field is never assigned, so unregister throws here
        // and the rest of the branch does not run.
        outcome := NullDereference;
      }
    }

    /** Migrate with the entries in insertion order until one returns
        normally, and select it. */
    method SelectBundleFromAvailables(migrate: Migration)
      requires Valid()
      modifies this
      ensures Valid()
      ensures Snapshot() == SelectFromAvailables(old(Snapshot()), migrate)
    {
      ConsistentSelect(Snapshot(), migrate);
      var i := 0;
      var selected := false;
      while i < |matchingBundles| && !selected
        invariant 0 <= i <= |matchingBundles|
        invariant matchingBundles == old(matchingBundles) && dataSourceSR == old(dataSourceSR)
        invariant migrations == old(migrations) + matchingBundles[..i]
        invariant !selected ==>
                    && selectedBundle == old(selectedBundle)
                    && forall j :: 0 <= j < i ==> !Migrates(migrate)(matchingBundles[j])
        invariant selected ==>
                    && 0 < i && Migrates(migrate)(matchingBundles[i - 1])
                    && (forall j :: 0 <= j < i - 1 ==> !Migrates(migrate)(matchingBundles[j]))
                    && selectedBundle == Some(matchingBundles[i - 1].bundle)
      {
        var entry := matchingBundles[i];
        var bundle := entry.bundle;
        var resourceName := entry.capability.schemaResource;
        migrations := migrations + [entry];
        if migrate(bundle, resourceName) {
          selectedBundle := Some(bundle);
          selected := true;
        }
        assert matchingBundles[..i + 1] == matchingBundles[..i] + [entry];
        i := i + 1;
      }
      if selected {
        FirstIndexUnique(matchingBundles, Migrates(migrate), i - 1);
      } else {
        assert matchingBundles[..i] == matchingBundles;
      }
    }
  }
}
