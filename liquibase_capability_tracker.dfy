/** The bundle tracker that selects the schema bundle of a data source
    (LiquibaseCapabilityTracker): it keeps the table of bundles that offer a
    matching Liquibase capability, in the order they were put, migrates the
    wrapped data source with the first candidate that succeeds, and registers
    the data source for it. Each method is proved to perform the step of the
    same name in selection.dfy, and to keep that module's invariant. */
module LiquibaseCapabilityTracker {
  import opened Bundles
  import opened CapabilityTable
  import opened ServiceProperties
  import opened Selection

  class Tracker {
    const config: Config
    const filter: Filter

    /** The LinkedHashMap of matching bundles, in insertion order. */
    var matchingBundles: seq<Entry>
    var selectedBundle: Option<Bundle>
    var dataSourceSR: Option<Registration>

    /** What the tracker has done to the service registry and the migration service. */
    ghost var registerCalls: nat
    ghost var unregisterCalls: nat
    ghost var migrations: seq<Entry>

    ghost function Snapshot(): State
      reads this
    {
      State(matchingBundles, selectedBundle, dataSourceSR, registerCalls, unregisterCalls, migrations)
    }

    ghost predicate Valid()
      reads this
    {
      Selection.Valid(config, Snapshot())
    }

    constructor (config: Config, filter: Filter)
      ensures this.config == config && this.filter == filter
      ensures Snapshot() == Initial && Valid()
    {
      this.config := config;
      this.filter := filter;
      matchingBundles := [];
      selectedBundle := None;
      dataSourceSR := None;
      registerCalls, unregisterCalls := 0, 0;
      migrations := [];
    }

    /** A bundle became active: it is tracked, and handled as a change. */
    method AddingBundle(bundle: Bundle, caps: seq<Capability>, migrate: Migration) returns (tracked: Bundle)
      requires Valid()
      modifies this
      ensures Valid()
      ensures tracked == bundle
      ensures Snapshot() == HandleChange(config, filter, old(Snapshot()), bundle, caps, migrate)
    {
      HandleBundleChange(bundle, caps, migrate);
      tracked := bundle;
    }

    method ModifiedBundle(bundle: Bundle, caps: seq<Capability>, migrate: Migration)
      requires Valid()
      modifies this
      ensures Valid()
      ensures Snapshot() == HandleChange(config, filter, old(Snapshot()), bundle, caps, migrate)
    {
      HandleBundleChange(bundle, caps, migrate);
    }

    method RemovedBundle(bundle: Bundle, migrate: Migration)
      requires Valid()
      modifies this
      ensures Valid()
      ensures Snapshot() == Removed(config, old(Snapshot()), bundle, migrate)
    {
      ValidDrop(config, Snapshot(), bundle);
      DropBundle(bundle);
      SelectBundleIfNecessary(migrate);
    }

    /** The first of the bundle's capabilities, in list order, that the filter matches. */
    method FindMatchingCapabilityInBundle(caps: seq<Capability>) returns (r: Option<Capability>)
      ensures r == FirstMatchingCapability(caps, filter)
    {
      var i := 0;
      var matchingCapability: Option<Capability> := None;
      while matchingCapability.None? && i < |caps|
        invariant 0 <= i <= |caps|
        invariant matchingCapability.None? ==> forall j :: 0 <= j < i ==> !filter(caps[j].attributes)
        invariant matchingCapability.Some? ==>
                    && 0 < i && matchingCapability.value == caps[i - 1] && filter(caps[i - 1].attributes)
                    && forall j :: 0 <= j < i - 1 ==> !filter(caps[j].attributes)
      {
        var capability := caps[i];
        i := i + 1;
        if filter(capability.attributes) {
          matchingCapability := Some(capability);
        }
      }
      r := matchingCapability;
      if r.Some? {
        FirstIndexUnique(caps, Matching(filter), i - 1);
      }
    }

    method HandleBundleChange(bundle: Bundle, caps: seq<Capability>, migrate: Migration)
      requires Valid()
      modifies this
      ensures Valid()
      ensures Snapshot() == HandleChange(config, filter, old(Snapshot()), bundle, caps, migrate)
    {
      ValidRematchDropped(config, filter, Snapshot(), bundle, caps);
      DropBundle(bundle);
      var matchingCapability := FindMatchingCapabilityInBundle(caps);
      if matchingCapability.Some? {
        matchingBundles := Put(matchingBundles, bundle, matchingCapability.value);
      }
      if selectedBundle.None? {
        SelectBundleIfNecessary(migrate);
      }
    }

    /** Forget the bundle; if it was the selected one, withdraw its registration. */
    method DropBundle(bundle: Bundle)
      requires Valid()
      modifies this
      ensures Valid()
      ensures Snapshot() == Drop(old(Snapshot()), bundle)
    {
      ValidDrop(config, Snapshot(), bundle);
      matchingBundles := Remove(matchingBundles, bundle);
      if selectedBundle == Some(bundle) {
        selectedBundle := None;
        // dataSourceSR.unregister(): the invariant guarantees a live registration here.
        assert dataSourceSR.Some?;
        unregisterCalls := unregisterCalls + 1;
        dataSourceSR := None;
      }
    }

    /** When nothing is selected, migrate with the candidates in insertion order
        until one succeeds; it is registered with its service properties and
        selected. A candidate whose migration throws, or whose properties hold a
        null value, is skipped. */
    method SelectBundleIfNecessary(migrate: Migration)
      requires Valid()
      modifies this
      ensures Valid()
      ensures Snapshot() == SelectIfNecessary(config, old(Snapshot()), migrate)
    {
      ValidSelect(config, Snapshot(), migrate);
      if selectedBundle.Some? {
        return;
      }
      var i := 0;
      var selected := false;
      while i < |matchingBundles| && !selected
        invariant 0 <= i <= |matchingBundles|
        invariant matchingBundles == old(matchingBundles) && unregisterCalls == old(unregisterCalls)
        invariant migrations == old(migrations) + matchingBundles[..i]
        invariant !selected ==>
                    && selectedBundle.None? && dataSourceSR == old(dataSourceSR) && registerCalls == old(registerCalls)
                    && forall j :: 0 <= j < i ==> !Accepts(config, migrate)(matchingBundles[j])
        invariant selected ==>
                    && 0 < i && Accepts(config, migrate)(matchingBundles[i - 1])
                    && (forall j :: 0 <= j < i - 1 ==> !Accepts(config, migrate)(matchingBundles[j]))
                    && selectedBundle == Some(matchingBundles[i - 1].bundle)
                    && dataSourceSR == Some(Registration(Properties(config, matchingBundles[i - 1]).value))
                    && registerCalls == old(registerCalls) + 1
      {
        var entry := matchingBundles[i];
        var bundle := entry.bundle;
        var resourceName := entry.capability.schemaResource;
        migrations := migrations + [entry];
        if migrate(bundle, resourceName) {
          var serviceProps := BuildServiceProperties(config, bundle, entry.capability);
          if serviceProps.Some? {
            dataSourceSR := Some(Registration(serviceProps.value));
            registerCalls := registerCalls + 1;
            selectedBundle := Some(bundle);
            selected := true;
          }
        }
        assert matchingBundles[..i + 1] == matchingBundles[..i] + [entry];
        i := i + 1;
      }
      if selected {
        FirstIndexUnique(matchingBundles, Accepts(config, migrate), i - 1);
      } else {
        assert matchingBundles[..i] == matchingBundles;
      }
    }
  }
}
