/** The data source tracker exactly as the source orders its scan: the bundle
    is selected as soon as its migration returns, before the service properties
    are built and the data source is registered, and any RuntimeException from
    those later steps is caught as if the migration had failed. A property
    value that is null (the Hashtable refuses it) then leaves a bundle selected
    with no registration, after which dropping that bundle calls unregister on
    a null registration and the event ends with that exception. The model in
    selection.dfy selects only once the registration is made. These members
    keep the source's order, prove the invariant it does keep, and show that
    the two agree whenever every property value is present. */
module AsWritten {
  import opened Bundles
  import opened CapabilityTable
  import opened ServiceProperties
  import opened Selection

  /** selectBundleIfNecessary as written: with nothing selected it stops at the
      first candidate whose migration returns normally, and selects it whether
      or not its data source could then be registered. */
  function SelectAsWritten(cfg: Config, s: State, migrate: Migration): State
  {
    if s.selected.Some? then s
    else match FirstIndex(s.entries, Migrates(migrate))
      case None => s.(migrations := s.migrations + s.entries)
      case Some(k) =>
        var t := s.(selected := Some(s.entries[k].bundle), migrations := s.migrations + s.entries[..k + 1]);
        match Properties(cfg, s.entries[k])
        case None => t
        case Some(props) => t.(registration := Some(Registration(props)), registerCalls := s.registerCalls + 1)
  }

  /** dropBundle as written: b leaves the table; if b was selected the selection
      is cleared and the registration withdrawn, and when there is no
      registration the unregister call throws after the selection is cleared. */
  function DropAsWritten(s: State, b: Bundle): (State, Outcome)
  {
    var t := s.(entries := Remove(s.entries, b));
    if s.selected != Some(b) then (t, Completed)
    else if s.registration.None? then (t.(selected := None), NullDereference)
    else (t.(selected := None, registration := None, unregisterCalls := s.unregisterCalls + 1), Completed)
  }

  /** handleBundleChange as written; an exception from the drop ends the event. */
  function HandleChangeAsWritten(cfg: Config, filter: Filter, s: State, b: Bundle, caps: seq<Capability>, migrate: Migration)
    : (State, Outcome)
  {
    var (d, o) := DropAsWritten(s, b);
    if o == NullDereference then (d, o)
    else
      var t := Rematch(d, b, caps, filter);
      (if t.selected.None? then SelectAsWritten(cfg, t, migrate) else t, Completed)
  }

  /** removedBundle as written; an exception from the drop ends the event. */
  function RemovedAsWritten(cfg: Config, s: State, b: Bundle, migrate: Migration): (State, Outcome)
  {
    var (d, o) := DropAsWritten(s, b);
    if o == NullDereference then (d, o) else (SelectAsWritten(cfg, d, migrate), Completed)
  }

  function StepAsWritten(cfg: Config, filter: Filter, s: State, ev: Event): (State, Outcome)
  {
    match ev
    case BundleAdded(b, caps, migrate) => HandleChangeAsWritten(cfg, filter, s, b, caps, migrate)
    case BundleModified(b, caps, migrate) => HandleChangeAsWritten(cfg, filter, s, b, caps, migrate)
    case BundleRemoved(b, migrate) => RemovedAsWritten(cfg, s, b, migrate)
  }

  /** The events delivered one at a time; an event that throws leaves the state
      it reached, and the next event is delivered all the same. */
  function RunAsWritten(cfg: Config, filter: Filter, s: State, events: seq<Event>): State
    decreases |events|
  {
    if events == [] then s else RunAsWritten(cfg, filter, StepAsWritten(cfg, filter, s, events[0]).0, events[1..])
  }

  /** What the source keeps even in its own order: the table is a map; the
      selected bundle is a key; a live registration implies a selection and
      describes the selected entry; registrations made and withdrawn differ by
      the live one. Unlike Selection.Valid, a selection without a registration
      is allowed. */
  ghost predicate ValidAsWritten(cfg: Config, s: State)
  {
    && DistinctKeys(s.entries)
    && (s.selected.Some? ==> HasKey(s.entries, s.selected.value))
    && (s.registration.Some? ==> s.selected.Some?)
    && s.registerCalls == s.unregisterCalls + (if s.registration.Some? then 1 else 0)
    && (s.registration.Some? ==>
          Properties(cfg, Entry(s.selected.value, Get(s.entries, s.selected.value).value))
          == Some(s.registration.value.properties))
  }

  /** Every state the corrected model allows is allowed here. */
  lemma ValidIsValidAsWritten(cfg: Config, s: State)
    requires Valid(cfg, s)
    ensures ValidAsWritten(cfg, s)
  {
  }

  /** The drop as written keeps the invariant; it throws exactly when b is
      selected with no registration; after a drop that completes, b is neither
      a key nor selected. */
  lemma ValidDropAsWritten(cfg: Config, s: State, b: Bundle)
    requires ValidAsWritten(cfg, s)
    ensures ValidAsWritten(cfg, DropAsWritten(s, b).0)
    ensures DropAsWritten(s, b).1 == NullDereference <==> s.selected == Some(b) && s.registration.None?
    ensures !HasKey(DropAsWritten(s, b).0.entries, b) && DropAsWritten(s, b).0.selected != Some(b)
  {
    HasKeyRemove(s.entries, b, b);
    if s.selected.Some? && s.selected.value != b {
      var x := s.selected.value;
      HasKeyRemove(s.entries, b, x);
      if s.registration.Some? {
        GetRemove(s.entries, b, x);
      }
    }
  }

  /** Putting a bundle back, when it is neither a key nor selected, keeps the invariant. */
  lemma ValidRematchAsWritten(cfg: Config, filter: Filter, d: State, b: Bundle, caps: seq<Capability>)
    requires ValidAsWritten(cfg, d) && !HasKey(d.entries, b) && d.selected != Some(b)
    ensures ValidAsWritten(cfg, Rematch(d, b, caps, filter))
  {
    if FirstMatchingCapability(caps, filter).Some? {
      var e := Entry(b, FirstMatchingCapability(caps, filter).value);
      PutNewKeepsDistinct(d.entries, b, e.capability);
      if d.selected.Some? {
        var x := d.selected.value;
        HasKeyAppend(d.entries, e, x);
        if d.registration.Some? {
          GetAppend(d.entries, e, x);
        }
      }
    }
  }

  /** The scan as written keeps the invariant. */
  lemma ValidSelectAsWritten(cfg: Config, s: State, migrate: Migration)
    requires ValidAsWritten(cfg, s)
    ensures ValidAsWritten(cfg, SelectAsWritten(cfg, s, migrate))
  {
    if s.selected.None? {
      match FirstIndex(s.entries, Migrates(migrate))
      case None =>
      case Some(k) =>
        GetOfMember(s.entries, s.entries[k]);
    }
  }

  lemma ValidStepAsWritten(cfg: Config, filter: Filter, s: State, ev: Event)
    requires ValidAsWritten(cfg, s)
    ensures ValidAsWritten(cfg, StepAsWritten(cfg, filter, s, ev).0)
  {
    ValidDropAsWritten(cfg, s, ev.bundle);
    var d := DropAsWritten(s, ev.bundle).0;
    ValidSelectAsWritten(cfg, d, ev.migrate);
    if !ev.BundleRemoved? {
      ValidRematchAsWritten(cfg, filter, d, ev.bundle, ev.caps);
      ValidSelectAsWritten(cfg, Rematch(d, ev.bundle, ev.caps, filter), ev.migrate);
    }
  }

  /** Over any sequence of events, exceptions included, the source keeps its
      table a map, its selection a key, and at most one registration live,
      which always belongs to the selected bundle. */
  lemma {:induction false} RunAsWrittenKeepsValid(cfg: Config, filter: Filter, s: State, events: seq<Event>)
    requires ValidAsWritten(cfg, s)
    ensures ValidAsWritten(cfg, RunAsWritten(cfg, filter, s, events))
    ensures var r := RunAsWritten(cfg, filter, s, events);
              r.registerCalls - r.unregisterCalls <= 1
    decreases |events|
  {
    if events != [] {
      ValidStepAsWritten(cfg, filter, s, events[0]);
      RunAsWrittenKeepsValid(cfg, filter, StepAsWritten(cfg, filter, s, events[0]).0, events[1..]);
    }
  }

  // ---------------------------------------------------------------------------
  // Where the source's order and the model agree

  /** Every entry of the table can be registered. */
  predicate AllPublishable(t: seq<Entry>)
  {
    forall e :: e in t ==> Publishable(e)
  }

  /** The bundle of an event has a symbolic name, and each capability it offers
      has both the schema-name and the schema-resource attribute. */
  predicate PublishableEvent(ev: Event)
  {
    && ev.bundle.symbolicName.Some?
    && (ev.BundleRemoved? || forall c :: c in ev.caps ==> c.schemaName.Some? && c.schemaResource.Some?)
  }

  /** When every candidate can be registered, the scan as written is the model's scan. */
  lemma SelectAgreesOnPublishable(cfg: Config, s: State, migrate: Migration)
    requires AllPublishable(s.entries)
    ensures SelectAsWritten(cfg, s, migrate) == SelectIfNecessary(cfg, s, migrate)
  {
    if s.selected.None? {
      forall i | 0 <= i < |s.entries|
        ensures Migrates(migrate)(s.entries[i]) == Accepts(cfg, migrate)(s.entries[i])
      {
        assert s.entries[i] in s.entries;
        assert Properties(cfg, s.entries[i]).Some?;
      }
      FirstIndexAgree(s.entries, Migrates(migrate), Accepts(cfg, migrate));
      match FirstIndex(s.entries, Migrates(migrate))
      case None =>
      case Some(k) => assert s.entries[k] in s.entries;
    }
  }

  /** On a state of the model, one event with all property values present does
      in the source exactly what it does in the model, without an exception,
      and keeps every entry registrable. */
  lemma StepAgreesOnPublishable(cfg: Config, filter: Filter, s: State, ev: Event)
    requires Valid(cfg, s) && AllPublishable(s.entries) && PublishableEvent(ev)
    ensures StepAsWritten(cfg, filter, s, ev) == (Step(cfg, filter, s, ev), Completed)
    ensures AllPublishable(Step(cfg, filter, s, ev).entries)
  {
    var b := ev.bundle;
    var d := Drop(s, b);
    assert DropAsWritten(s, b) == (d, Completed);
    assert AllPublishable(d.entries);
    SelectAgreesOnPublishable(cfg, d, ev.migrate);
    if !ev.BundleRemoved? {
      var m := Rematch(d, b, ev.caps, filter);
      HasKeyRemove(s.entries, b, b);
      match FirstMatchingCapability(ev.caps, filter)
      case None =>
      case Some(c) =>
        var k :| 0 <= k < |ev.caps| && ev.caps[k] == c;
        assert c in ev.caps;
        assert m.entries == d.entries + [Entry(b, c)];
      assert AllPublishable(m.entries);
      SelectAgreesOnPublishable(cfg, m, ev.migrate);
      SelectFirstSuccess(cfg, m, ev.migrate);
    } else {
      SelectFirstSuccess(cfg, d, ev.migrate);
    }
  }

  /** From any state of the model whose entries can all be registered, a
      sequence of events whose property values are all present runs in the
      source exactly as in the model: the two differ only on a candidate whose
      properties hold a null value. */
  lemma {:induction false} RunAgreesOnPublishable(cfg: Config, filter: Filter, s: State, events: seq<Event>)
    requires Valid(cfg, s) && AllPublishable(s.entries)
    requires forall i :: 0 <= i < |events| ==> PublishableEvent(events[i])
    ensures RunAsWritten(cfg, filter, s, events) == Run(cfg, filter, s, events)
    decreases |events|
  {
    if events != [] {
      StepAgreesOnPublishable(cfg, filter, s, events[0]);
      ValidStep(cfg, filter, s, events[0]);
      RunAgreesOnPublishable(cfg, filter, Step(cfg, filter, s, events[0]), events[1..]);
    }
  }

  // ---------------------------------------------------------------------------
  // Where they differ

  /** Whenever the first candidate whose migration returns cannot be
      registered, the scan as written selects it with no registration, breaking
      the model's invariant, and the next removal of that bundle throws. */
  lemma {:induction false} AsWrittenSelectsUnregistered(cfg: Config, s: State, migrate: Migration, k: nat)
    requires Valid(cfg, s) && s.selected.None?
    requires FirstIndex(s.entries, Migrates(migrate)) == Some(k) && !Publishable(s.entries[k])
    ensures var r := SelectAsWritten(cfg, s, migrate);
      && r.selected == Some(s.entries[k].bundle) && r.registration.None?
      && !Valid(cfg, r)
      && DropAsWritten(r, s.entries[k].bundle).1 == NullDereference
  {
  }

  /** A concrete case: candidates P1, whose capability lacks the
      schema-resource attribute, then P2; both migrations return normally. As
      written P1 is selected and nothing is registered, and removing P1 throws;
      the model tries P2 after P1 cannot be registered, and selects and
      registers P2. */
  lemma MissingResourceCounterexample(cfg: Config)
    ensures
      var p1 := Entry(Bundle(1, Some("app.schema"), "1.0.0"), Capability(map[], Some(Str("app")), None));
      var p2 := Entry(Bundle(2, Some("app.schema.next"), "1.0.0"), Capability(map[], Some(Str("app")), Some("changelog.xml")));
      var s := Initial.(entries := [p1, p2]);
      var always: Migration := (b: Bundle, r: Option<string>) => true;
      && SelectAsWritten(cfg, s, always).selected == Some(p1.bundle)
      && SelectAsWritten(cfg, s, always).registration.None?
      && DropAsWritten(SelectAsWritten(cfg, s, always), p1.bundle).1 == NullDereference
      && SelectIfNecessary(cfg, s, always).selected == Some(p2.bundle)
      && SelectIfNecessary(cfg, s, always).registration == Some(Registration(Properties(cfg, p2).value))
      && Valid(cfg, SelectIfNecessary(cfg, s, always))
  {
    var p1 := Entry(Bundle(1, Some("app.schema"), "1.0.0"), Capability(map[], Some(Str("app")), None));
    var p2 := Entry(Bundle(2, Some("app.schema.next"), "1.0.0"), Capability(map[], Some(Str("app")), Some("changelog.xml")));
    var s := Initial.(entries := [p1, p2]);
    var always: Migration := (b: Bundle, r: Option<string>) => true;
    FirstIndexUnique(s.entries, Migrates(always), 0);
    assert always(p1.bundle, p1.capability.schemaResource) && always(p2.bundle, p2.capability.schemaResource);
    assert !Publishable(p1) && Publishable(p2);
    assert Properties(cfg, p1).None? && Properties(cfg, p2).Some?;
    assert !Accepts(cfg, always)(p1) && Accepts(cfg, always)(p2);
    FirstIndexUnique(s.entries, Accepts(cfg, always), 1);
    InitialValid(cfg);
    assert Valid(cfg, s);
    ValidSelect(cfg, s, always);
  }
}
