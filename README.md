# Schema bundle selection of the Liquibase data source tracker

This project models the bundle tracker that picks the Liquibase schema bundle of a data source. That tracker is `LiquibaseCapabilityTracker`. It keeps three pieces of state:

- a table of the bundles that offer a Liquibase capability matching the configured schema expression, in the order they were put (a `LinkedHashMap`);
- at most one selected bundle;
- at most one registration of the wrapped data source.

Each tracker event runs one step:

- when a bundle is added or modified, the tracker drops it, puts it back with its first matching capability, and scans when nothing is selected;
- when a bundle is removed, the tracker drops it and scans.

The scan tries the candidates in table order and calls the migration service for each one. It selects the first candidate that succeeds and registers the data source with a property table describing that bundle's schema. In the source, a candidate is selected as soon as its migration returns, before its property table is built. A null property value then ends the scan with that bundle selected and no registration (see "## Findings"). The model's scan uses the corrected order: a candidate is taken only when its migration returns normally and its property table can be built, and the other candidates are skipped. `as_written.dfy` keeps the source's order and proves two things about it:

- the invariant the source does keep;
- the source's order and the model agree on every run in which all property values are present.

The earlier tracker `LiquiCapabilityTracker` is modelled beside it. It has the same table, selection and scan, but its table never gains an entry.

Files:

- `bundles.dfy`: the values both trackers work on, and the first-index search the scans use:
  - bundles, capabilities and table entries;
  - the filter and migration oracles;
  - the observable tracker state.
- `capability_table.dfy`: the `LinkedHashMap` as a sequence of entries with distinct keys. `get`, `remove` and `put` are modelled with their effect on keys and insertion order.
- `service_properties.dfy`: the `Hashtable` the data source is registered with, built by successive puts. A null value stops the build.
- `selection.dfy`: each step of the tracker as a function on the state, with the invariant every step keeps:
  - the table is a map;
  - a bundle is selected exactly when a registration is live;
  - the selected bundle is a key whose entry the registration describes;
  - registrations made and withdrawn differ by at most one.
- `liquibase_capability_tracker.dfy`: the tracker as a class whose methods are proved to perform those steps and to keep the invariant.
- `as_written.dfy`: the tracker's steps in the source's own order, with:
  - the invariant it keeps;
  - its agreement with the model when every property value is present;
  - the discrepancy (see "## Findings").
- `liqui_capability_tracker.dfy`: the earlier tracker, its steps, and the proof that a fresh one never keeps, selects, migrates or registers anything.

The environment appears through parameters:

- the capability filter is a predicate on attribute maps, fixed when the tracker is built;
- the migration service is a predicate on a bundle and its schema resource, given with each event;
- the capabilities a bundle offers are given with each add or modify event;
- a registration is a value holding its property table, and ghost counters record how many registrations were made and withdrawn;
- a ghost log records every migration call in order.

Two behaviours of the code worth noting; the model follows the code:

- A modified bundle that still matches is removed and put again, so it moves to the end of the insertion order. It does not keep its position.
- A matching capability without the schema-resource attribute is still a candidate. Its migration is called with no resource; nothing treats it as a non-match at match time.

## Model

| member | source | states |
|---|---|---|
| Bundles.FirstMatchingCapability | component/src/main/java/org/everit/osgi/liquibase/datasource/LiquibaseCapabilityTracker.java:91-104 | None exactly when no capability's attributes satisfy the filter; otherwise the capability at the first index, in list order, whose attributes satisfy it |
| CapabilityTable.Remove | component/src/main/java/org/everit/osgi/liquibase/datasource/LiquibaseCapabilityTracker.java:119 | the entries kept are exactly those of other bundles; the table stays a map; removing an absent key changes nothing |
| CapabilityTable.Put | component/src/main/java/org/everit/osgi/liquibase/datasource/LiquibaseCapabilityTracker.java:111 | an absent key is appended as the last entry; a present key has its capability replaced in place, every other entry unchanged |
| CapabilityTable.HasKeyRemove | component/src/main/java/org/everit/osgi/liquibase/datasource/LiquibaseCapabilityTracker.java:119 | after removing b, the keys are exactly the old keys other than b |
| CapabilityTable.RemovePreservesOrder | component/src/main/java/org/everit/osgi/liquibase/datasource/LiquibaseCapabilityTracker.java:119 | removing b keeps the relative insertion order of every two other keys (both directions) |
| CapabilityTable.AppendOrder | component/src/main/java/org/everit/osgi/liquibase/datasource/LiquibaseCapabilityTracker.java:111 | appending a new key keeps the order of the existing keys and places the new key after each of them |
| CapabilityTable.GetRemove | component/src/main/java/org/everit/osgi/liquibase/datasource/LiquibaseCapabilityTracker.java:119 | removing another bundle does not change what a lookup of x returns |
| ServiceProperties.PropertiesContents | component/src/main/java/org/everit/osgi/liquibase/datasource/LiquibaseCapabilityTracker.java:147-164 | a property table exists exactly when the bundle has a symbolic name and the capability has both a schema name and a resource; when it does, it holds exactly the following and no other key: the wrapped properties; the wrapped id and pid under the wrappedDataSource keys, each only when present; service.pid set to the component pid; the bundle id, symbolic name and version; the schema name, expression and resource |
| ServiceProperties.BuildServiceProperties | component/src/main/java/org/everit/osgi/liquibase/datasource/LiquibaseCapabilityTracker.java:147-164 | the successive puts give exactly the property table of the entry, or none when a value to put is null |
| ServiceProperties.Properties | component/src/main/java/org/everit/osgi/liquibase/datasource/LiquibaseCapabilityTracker.java:147-164 | the registration property table of an entry, or none when a value to put is null: the wrapped properties, the wrapped identity keys, then the schema keys |
| Selection.Drop | component/src/main/java/org/everit/osgi/liquibase/datasource/LiquibaseCapabilityTracker.java:118-125 | dropBundle: the table without b; if b was selected, no selection, no registration and one more unregistration |
| Selection.SelectIfNecessary | component/src/main/java/org/everit/osgi/liquibase/datasource/LiquibaseCapabilityTracker.java:127-172 | the scan in the corrected order: no-op with a selection; otherwise select and register the first candidate whose migration returns and whose property table can be built, after migrating the candidates up to it |
| Selection.HandleChange | component/src/main/java/org/everit/osgi/liquibase/datasource/LiquibaseCapabilityTracker.java:106-116 | handleBundleChange: drop b, put it back with its first matching capability, and scan when nothing is selected |
| Selection.Removed | component/src/main/java/org/everit/osgi/liquibase/datasource/LiquibaseCapabilityTracker.java:180-183 | removedBundle: drop b, then scan |
| Selection.Step | component/src/main/java/org/everit/osgi/liquibase/datasource/LiquibaseCapabilityTracker.java:85-89 | one add, modify or remove event |
| Selection.Run | component/src/main/java/org/everit/osgi/liquibase/datasource/LiquibaseCapabilityTracker.java:174-183 | the events delivered one at a time |
| Selection.DropSpec | component/src/main/java/org/everit/osgi/liquibase/datasource/LiquibaseCapabilityTracker.java:118-125 | dropBundle removes b and only b, and keeps the order of the others; if b was selected, the selection and registration are cleared and one unregistration is made; otherwise the selection, registration and counters are unchanged; no migration is made |
| Selection.ValidDrop | component/src/main/java/org/everit/osgi/liquibase/datasource/LiquibaseCapabilityTracker.java:118-124 | dropBundle keeps the tracker invariant |
| Selection.SelectFirstSuccess | component/src/main/java/org/everit/osgi/liquibase/datasource/LiquibaseCapabilityTracker.java:127-171 | with a bundle selected, the scan is a no-op; otherwise it selects the first candidate in table order whose migration returns and whose table can be built, after migrating exactly the candidates up to it, with exactly one registration carrying its properties; if every candidate fails, all are migrated and nothing is selected or registered |
| Selection.ValidSelect | component/src/main/java/org/everit/osgi/liquibase/datasource/LiquibaseCapabilityTracker.java:131-166 | the scan keeps the tracker invariant: the selected bundle is a key and the live registration describes its entry |
| Selection.HandleChangeTable | component/src/main/java/org/everit/osgi/liquibase/datasource/LiquibaseCapabilityTracker.java:107-112 | after handleBundleChange(b), b is a key exactly when it has a matching capability, and then the table is the old one without b followed by b; other keys stay and keep their relative order; b comes after all of them |
| Selection.ReinsertTable | component/src/main/java/org/everit/osgi/liquibase/datasource/LiquibaseCapabilityTracker.java:107-112 | removing b and putting it again appends it after every remaining key; other keys and their order are unchanged |
| Selection.ScanOnlyWhenUnselected | component/src/main/java/org/everit/osgi/liquibase/datasource/LiquibaseCapabilityTracker.java:113-115 | an add or modify event scans only if nothing is selected after the drop, and otherwise changes only the table; when it scans a non-empty table, the migration log grows by a non-empty prefix of the table; a removal with a surviving selection is just the drop |
| Selection.ValidRematchDropped | component/src/main/java/org/everit/osgi/liquibase/datasource/LiquibaseCapabilityTracker.java:107-112 | dropping b and putting it back with its matching capability keeps the invariant |
| Selection.ValidHandleChange | component/src/main/java/org/everit/osgi/liquibase/datasource/LiquibaseCapabilityTracker.java:106-116 | handleBundleChange keeps the invariant |
| Selection.ValidRemoved | component/src/main/java/org/everit/osgi/liquibase/datasource/LiquibaseCapabilityTracker.java:180-183 | removedBundle keeps the invariant |
| Selection.ValidStep | component/src/main/java/org/everit/osgi/liquibase/datasource/LiquibaseCapabilityTracker.java:174-177 | each of the three events keeps the invariant |
| Selection.RunKeepsValid | component/src/main/java/org/everit/osgi/liquibase/datasource/LiquibaseCapabilityTracker.java:118-124 | over any event sequence the invariant holds: the selected bundle is a key, and at most one registration is live |
| Selection.InitialValid | component/src/main/java/org/everit/osgi/liquibase/datasource/LiquibaseCapabilityTracker.java:69-83 | a freshly built tracker satisfies the invariant |
| Selection.FallbackToSecondCandidate | component/src/main/java/org/everit/osgi/liquibase/datasource/LiquibaseCapabilityTracker.java:134-170 | with candidates P1 then P2, where P1's migration fails and P2's succeeds: P2 is selected, P1 and P2 were migrated in that order, and one registration was made carrying P2's bundle id |
| Selection.NoMatchNoMigration | component/src/main/java/org/everit/osgi/liquibase/datasource/LiquibaseCapabilityTracker.java:106-116 | when no bundle ever offers a matching capability, the table stays empty and nothing is ever selected, migrated or registered |
| LiquibaseCapabilityTracker.Tracker.constructor | component/src/main/java/org/everit/osgi/liquibase/datasource/LiquibaseCapabilityTracker.java:69-83 | a new tracker has an empty table, no selection, no registration |
| LiquibaseCapabilityTracker.Tracker.AddingBundle | component/src/main/java/org/everit/osgi/liquibase/datasource/LiquibaseCapabilityTracker.java:85-89 | performs handleBundleChange and returns the bundle, keeping the invariant |
| LiquibaseCapabilityTracker.Tracker.ModifiedBundle | component/src/main/java/org/everit/osgi/liquibase/datasource/LiquibaseCapabilityTracker.java:174-177 | performs handleBundleChange, keeping the invariant |
| LiquibaseCapabilityTracker.Tracker.RemovedBundle | component/src/main/java/org/everit/osgi/liquibase/datasource/LiquibaseCapabilityTracker.java:179-183 | drops the bundle and then scans, keeping the invariant |
| LiquibaseCapabilityTracker.Tracker.FindMatchingCapabilityInBundle | component/src/main/java/org/everit/osgi/liquibase/datasource/LiquibaseCapabilityTracker.java:91-104 | its loop returns the first matching capability in list order, or none |
| LiquibaseCapabilityTracker.Tracker.HandleBundleChange | component/src/main/java/org/everit/osgi/liquibase/datasource/LiquibaseCapabilityTracker.java:106-116 | drops the bundle, puts it back with its matching capability, and scans when nothing is selected, keeping the invariant |
| LiquibaseCapabilityTracker.Tracker.DropBundle | component/src/main/java/org/everit/osgi/liquibase/datasource/LiquibaseCapabilityTracker.java:118-125 | removes the bundle and, if it was selected, clears the selection and withdraws the live registration, keeping the invariant |
| LiquibaseCapabilityTracker.Tracker.SelectBundleIfNecessary | component/src/main/java/org/everit/osgi/liquibase/datasource/LiquibaseCapabilityTracker.java:127-172 | its loop performs the first-success scan of Selection.SelectFirstSuccess, registering before it selects, and keeps the invariant |
| AsWritten.SelectAsWritten | component/src/main/java/org/everit/osgi/liquibase/datasource/LiquibaseCapabilityTracker.java:131-171 | the scan as written: select the first candidate whose migration returns, and register it only when its property table can be built |
| AsWritten.DropAsWritten | component/src/main/java/org/everit/osgi/liquibase/datasource/LiquibaseCapabilityTracker.java:118-125 | dropBundle as written: with b selected and no registration, the selection is cleared and unregister throws |
| AsWritten.HandleChangeAsWritten | component/src/main/java/org/everit/osgi/liquibase/datasource/LiquibaseCapabilityTracker.java:106-116 | handleBundleChange as written; an exception from the drop ends the event |
| AsWritten.RemovedAsWritten | component/src/main/java/org/everit/osgi/liquibase/datasource/LiquibaseCapabilityTracker.java:180-183 | removedBundle as written; an exception from the drop ends the event |
| AsWritten.StepAsWritten | component/src/main/java/org/everit/osgi/liquibase/datasource/LiquibaseCapabilityTracker.java:85-89 | one event as written |
| AsWritten.RunAsWritten | component/src/main/java/org/everit/osgi/liquibase/datasource/LiquibaseCapabilityTracker.java:174-183 | the events as written, one at a time, each continuing from the state the previous one reached |
| AsWritten.ValidDropAsWritten | component/src/main/java/org/everit/osgi/liquibase/datasource/LiquibaseCapabilityTracker.java:118-124 | the drop as written keeps the source's invariant; it throws exactly when b is selected with no registration; afterwards b is neither a key nor selected |
| AsWritten.ValidRematchAsWritten | component/src/main/java/org/everit/osgi/liquibase/datasource/LiquibaseCapabilityTracker.java:107-112 | putting b back with its matching capability keeps the source's invariant |
| AsWritten.ValidSelectAsWritten | component/src/main/java/org/everit/osgi/liquibase/datasource/LiquibaseCapabilityTracker.java:131-171 | the scan as written keeps the source's invariant |
| AsWritten.ValidStepAsWritten | component/src/main/java/org/everit/osgi/liquibase/datasource/LiquibaseCapabilityTracker.java:174-183 | each event as written keeps the source's invariant |
| AsWritten.RunAsWrittenKeepsValid | component/src/main/java/org/everit/osgi/liquibase/datasource/LiquibaseCapabilityTracker.java:118-166 | over any event sequence, exceptions included, the source's order keeps four things: the table is a map; the selected bundle is a key; a live registration implies a selection and describes the selected entry; registrations made and withdrawn differ by the live one, so at most one is live |
| AsWritten.ValidIsValidAsWritten | component/src/main/java/org/everit/osgi/liquibase/datasource/LiquibaseCapabilityTracker.java:118-166 | every state the corrected invariant allows also satisfies the source's invariant |
| AsWritten.SelectAgreesOnPublishable | component/src/main/java/org/everit/osgi/liquibase/datasource/LiquibaseCapabilityTracker.java:131-171 | when every candidate can be registered, the scan as written equals the corrected scan |
| AsWritten.StepAgreesOnPublishable | component/src/main/java/org/everit/osgi/liquibase/datasource/LiquibaseCapabilityTracker.java:174-183 | from a state of the model, an event whose property values are all present does exactly what the model does, without an exception, and keeps every entry registrable |
| AsWritten.RunAgreesOnPublishable | component/src/main/java/org/everit/osgi/liquibase/datasource/LiquibaseCapabilityTracker.java:174-183 | any sequence of such events runs as written exactly as in the model |
| AsWritten.AsWrittenSelectsUnregistered | component/src/main/java/org/everit/osgi/liquibase/datasource/LiquibaseCapabilityTracker.java:140-170 | in the source's order, the scan selects the first candidate whose migration returns even when its property table cannot be built; that leaves a selection with no registration, which breaks the invariant, and the next drop of that bundle dereferences the null registration |
| AsWritten.MissingResourceCounterexample | component/src/main/java/org/everit/osgi/liquibase/datasource/LiquibaseCapabilityTracker.java:140-170 | with candidates P1, whose capability has no schema-resource attribute, then P2, and both migrations returning: as written, P1 is selected unregistered and dropping it throws; the corrected scan selects and registers P2 |
| LiquiCapabilityTracker.SelectFromAvailables | component/src/main/java/org/everit/osgi/liquibase/component/internal/LiquiCapabilityTracker.java:103-122 | selectBundleFromAvailables: select the first entry whose migration returns, after migrating the entries up to it; no registration |
| LiquiCapabilityTracker.Drop | component/src/main/java/org/everit/osgi/liquibase/component/internal/LiquiCapabilityTracker.java:93-101 | dropBundle: the table without b; if b was selected, the selection is cleared, and unregister throws when there is no registration; with a registration it is withdrawn and the scan runs |
| LiquiCapabilityTracker.Step | component/src/main/java/org/everit/osgi/liquibase/component/internal/LiquiCapabilityTracker.java:73-91 | every event is a drop of its bundle |
| LiquiCapabilityTracker.Run | component/src/main/java/org/everit/osgi/liquibase/component/internal/LiquiCapabilityTracker.java:124-132 | the events delivered one at a time, with the outcome of each |
| LiquiCapabilityTracker.SelectFirstSuccess | component/src/main/java/org/everit/osgi/liquibase/component/internal/LiquiCapabilityTracker.java:103-122 | selectBundleFromAvailables selects the first entry in insertion order whose migration returns, after migrating exactly the entries up to it; if all fail it migrates all and leaves the selection as it was; the table and registration are untouched |
| LiquiCapabilityTracker.ConsistentSelect | component/src/main/java/org/everit/osgi/liquibase/component/internal/LiquiCapabilityTracker.java:103-122 | the scan keeps the earlier tracker consistent: the selected bundle is a key, and no registration exists |
| LiquiCapabilityTracker.ConsistentDrop | component/src/main/java/org/everit/osgi/liquibase/component/internal/LiquiCapabilityTracker.java:93-101 | dropBundle removes b and only b, keeps the order of the others, makes no migration and keeps consistency; it throws exactly when b was selected, and then the selection is cleared, because unregister is called on a null registration |
| LiquiCapabilityTracker.RunKeepsConsistent | component/src/main/java/org/everit/osgi/liquibase/component/internal/LiquiCapabilityTracker.java:79-101 | over any event sequence the table never gains an entry, no migration is made, and consistency holds |
| LiquiCapabilityTracker.InitialIsPermanent | component/src/main/java/org/everit/osgi/liquibase/component/internal/LiquiCapabilityTracker.java:51-59 | from a fresh tracker, every event sequence leaves it exactly as constructed: empty table, no selection, no migration, no registration; and every event completes without throwing |
| LiquiCapabilityTracker.Tracker.constructor | component/src/main/java/org/everit/osgi/liquibase/component/internal/LiquiCapabilityTracker.java:63-71 | a new tracker is in the initial state |
| LiquiCapabilityTracker.Tracker.AddingBundle | component/src/main/java/org/everit/osgi/liquibase/component/internal/LiquiCapabilityTracker.java:73-77 | performs the drop of handleBundleChange; the bundle is tracked unless the handler throws |
| LiquiCapabilityTracker.Tracker.ModifiedBundle | component/src/main/java/org/everit/osgi/liquibase/component/internal/LiquiCapabilityTracker.java:124-127 | performs the drop of handleBundleChange |
| LiquiCapabilityTracker.Tracker.RemovedBundle | component/src/main/java/org/everit/osgi/liquibase/component/internal/LiquiCapabilityTracker.java:129-132 | performs dropBundle |
| LiquiCapabilityTracker.Tracker.HandleBundleChange | component/src/main/java/org/everit/osgi/liquibase/component/internal/LiquiCapabilityTracker.java:79-91 | only drops the bundle; the filter branches change nothing |
| LiquiCapabilityTracker.Tracker.DropBundle | component/src/main/java/org/everit/osgi/liquibase/component/internal/LiquiCapabilityTracker.java:93-101 | removes the bundle; if it was selected, clears the selection and ends with a null dereference |
| LiquiCapabilityTracker.Tracker.SelectBundleFromAvailables | component/src/main/java/org/everit/osgi/liquibase/component/internal/LiquiCapabilityTracker.java:103-122 | its loop performs the first-success scan of LiquiCapabilityTracker.SelectFirstSuccess |

## Left out

- The OSGi plumbing is not modelled: the `BundleTracker` base class, the bundle state mask, `adapt(BundleWiring.class)` and `getCapabilities`, and `BundleContext.registerService`. The capabilities of a bundle arrive as a parameter of each event, and a registration is a value.
- Building the filter from the schema expression (`LiquibaseOSGiUtil`) is not modelled. The filter is an arbitrary predicate on attribute maps.
- `liquibaseService.process` and the Liquibase/JDBC migration behind it are not modelled. Whether a call returns normally is an oracle given with each event.
- Thread delivery of events and `synchronized` are not modelled; events run one at a time.
  - `LiquibaseCapabilityTracker` ensures this by synchronising `handleBundleChange` and `removedBundle`.
  - No handler of `LiquiCapabilityTracker` is synchronised. One event at a time loses nothing there: its table never gains an entry, so no event can select, migrate or register, whatever the interleaving.
- Logging is not modelled.
- Closing the tracker, and the unregistration it may cause in the component that owns it, are not modelled.
- A `registerService` call that throws is not modelled. A registration always succeeds once its property table is built.
- A log call that throws is not modelled either.
- A schema-resource attribute that is not a `String`, where the cast throws `ClassCastException`, is not modelled. The attribute is either a string or absent.
- Null values in the wrapped data source's properties, a null component pid and a null schema expression are not modelled, though each would make the `Hashtable` throw. They are assumed present.
- Bundle identity is modelled as the id, symbolic name and version; two bundles are equal when these agree. The source compares `Bundle` objects, and a bundle keeps its identity when an update changes its symbolic name or version. The model does not capture such an update: it sees a different key, so the old entry or selection would stay behind. Events are taken to name a tracked bundle with the values it was put with.
- LiquiCapabilityTracker.Tracker.HandleBundleChange: does not model the loop over the capabilities, because both branches of its filter test are empty and it changes no state.
- LiquiCapabilityTracker.Tracker.DropBundle: does not model lines 98-99 (clearing the registration and rescanning), because the registration field is never assigned, so the unregister call before them always throws. The value-level `LiquiCapabilityTracker.Drop` still states them for a state that holds a registration.
- The data source components that create and close the trackers, the Liquibase component, the capability holder class, the configuration exception classes, the constants class and the tests are not part of this model.

## Findings

| source | as written | input that shows it | evidently intended | confidence | as-written member | corrected member |
|---|---|---|---|---|---|---|
| component/src/main/java/org/everit/osgi/liquibase/datasource/LiquibaseCapabilityTracker.java:140-170 | the bundle is selected as soon as its migration returns (lines 142-143), before the property table is built and the data source registered (147-166); a RuntimeException from those steps is caught as a failed migration, so the bundle stays selected with no registration | a matching capability without the schema-resource attribute whose migration returns normally: the put at line 164 throws NullPointerException; the scan stops with that bundle selected and the data source unregistered, and removing the bundle later throws NullPointerException at line 122; any other RuntimeException after line 142, such as one from the log call at 144 or from registerService at 166, has the same effect | a bundle is selected only together with its registration, which dropBundle relies on at line 122; a candidate that cannot be registered is skipped like one whose migration fails | moderate, not executed | AsWritten.AsWrittenSelectsUnregistered | Selection.ValidSelect |

The corrected scan has three parts:

- `Selection.SelectIfNecessary` is the scan;
- `Selection.SelectFirstSuccess` states its first-success property;
- `Selection.ValidSelect` states the invariant it keeps.

The class method `LiquibaseCapabilityTracker.Tracker.SelectBundleIfNecessary` implements it by building the properties and registering before it selects.

The source's own order is covered by these members:

- `AsWritten.AsWrittenSelectsUnregistered` covers every first success whose property table cannot be built.
- `AsWritten.MissingResourceCounterexample` shows both behaviours on one concrete input.
- `AsWritten.RunAgreesOnPublishable` shows that the two orders differ only on such candidates.
- `AsWritten.RunAsWrittenKeepsValid` shows that the source's own order still keeps its table and its selection consistent, with at most one registration.
