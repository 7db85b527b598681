/** The service properties the data source is registered with once a bundle's
    schema has been migrated: a copy of the wrapped data source's properties,
    its identity kept under wrappedDataSource.* keys, the component's pid, and
    the identity and schema of the selected bundle. The table is a Hashtable,
    which refuses null values. */
module ServiceProperties {
  import opened Bundles

  /** What the tracker is constructed with, besides its filter: the service
      properties of the wrapped data source, the component's pid, and the
      schema expression the filter was built from. */
  datatype Config = Config(wrappedProperties: map<string, Value>, componentPid: string, schemaExpression: string)

  const ServiceId := "service.id"
  const ServicePid := "service.pid"
  const WrappedServiceId := "wrappedDataSource.service.id"
  const WrappedServicePid := "wrappedDataSource.service.pid"
  const BundleIdKey := "liquibase.schema.bundle.id"
  const BundleSymbolicNameKey := "liquibase.schema.bundle.symbolicName"
  const BundleVersionKey := "liquibase.schema.bundle.version"
  const SchemaNameKey := "liquibase.schema.name"
  const SchemaExpressionKey := "liquibase.schema.expression"
  const SchemaResourceKey := "liquibase.schema.resource"

  /** The keys the tracker always sets, whatever the wrapped properties hold. */
  const SchemaKeys: set<string> := {ServicePid, BundleIdKey, BundleSymbolicNameKey, BundleVersionKey,
                                    SchemaNameKey, SchemaExpressionKey, SchemaResourceKey}

  /** Every value the tracker puts is present: the bundle has a symbolic name and
      the capability has both the schema-name and the schema-resource attribute. */
  predicate Publishable(e: Entry)
  {
    e.bundle.symbolicName.Some? && e.capability.schemaName.Some? && e.capability.schemaResource.Some?
  }

  /** The wrapped data source's own id and pid, under the wrappedDataSource.* keys, each only if present. */
  function WrappedIdentity(w: map<string, Value>): map<string, Value>
  {
    (if ServiceId in w then map[WrappedServiceId := w[ServiceId]] else map[])
    + (if ServicePid in w then map[WrappedServicePid := w[ServicePid]] else map[])
  }

  /** The properties that describe the component and the selected bundle's schema. */
  function SchemaProperties(cfg: Config, e: Entry): map<string, Value>
    requires Publishable(e)
  {
    map[ServicePid := Str(cfg.componentPid),
        BundleIdKey := Long(e.bundle.id),
        BundleSymbolicNameKey := Str(e.bundle.symbolicName.value),
        BundleVersionKey := Str(e.bundle.version),
        SchemaNameKey := e.capability.schemaName.value,
        SchemaExpressionKey := Str(cfg.schemaExpression),
        SchemaResourceKey := Str(e.capability.schemaResource.value)]
  }

  /** The registration properties for entry e, or None when one of the values
      to put is null (the Hashtable throws NullPointerException). */
  function Properties(cfg: Config, e: Entry): Option<map<string, Value>>
  {
    if Publishable(e) then Some(cfg.wrappedProperties + WrappedIdentity(cfg.wrappedProperties) + SchemaProperties(cfg, e))
    else None
  }

  /** What the registration properties hold, key by key. */
  lemma PropertiesContents(cfg: Config, e: Entry)
    ensures Properties(cfg, e).Some? <==> Publishable(e)
    ensures Properties(cfg, e).Some? ==>
      var m, w := Properties(cfg, e).value, cfg.wrappedProperties;
      && m.Keys == w.Keys + SchemaKeys
                   + (if ServiceId in w then {WrappedServiceId} else {})
                   + (if ServicePid in w then {WrappedServicePid} else {})
      && m[ServicePid] == Str(cfg.componentPid)
      && m[BundleIdKey] == Long(e.bundle.id)
      && m[BundleSymbolicNameKey] == Str(e.bundle.symbolicName.value)
      && m[BundleVersionKey] == Str(e.bundle.version)
      && m[SchemaNameKey] == e.capability.schemaName.value
      && m[SchemaExpressionKey] == Str(cfg.schemaExpression)
      && m[SchemaResourceKey] == Str(e.capability.schemaResource.value)
      && (ServiceId in w ==> m[WrappedServiceId] == w[ServiceId])
      && (ServicePid in w ==> m[WrappedServicePid] == w[ServicePid])
      && forall k :: (&& k in w && k !in SchemaKeys
                      && (k == WrappedServiceId ==> ServiceId !in w)
                      && (k == WrappedServicePid ==> ServicePid !in w)) ==> m[k] == w[k]
  {
    if Publishable(e) {
      var w := cfg.wrappedProperties;
      var m := Properties(cfg, e).value;
      assert WrappedServiceId !in SchemaKeys && WrappedServicePid !in SchemaKeys;
      assert WrappedServicePid != WrappedServiceId;
    }
  }

  /** The property table built by successive puts, as selectBundleIfNecessary does;
      a null value stops it with no table. */
  method BuildServiceProperties(cfg: Config, bundle: Bundle, capability: Capability)
    returns (props: Option<map<string, Value>>)
    ensures props == Properties(cfg, Entry(bundle, capability))
  {
    var w := cfg.wrappedProperties;
    var table := w;
    if ServiceId in w {
      table := table[WrappedServiceId := w[ServiceId]];
    }
    if ServicePid in w {
      table := table[WrappedServicePid := w[ServicePid]];
    }
    table := table[ServicePid := Str(cfg.componentPid)];
    table := table[BundleIdKey := Long(bundle.id)];
    if bundle.symbolicName.None? {
      return None;
    }
    table := table[BundleSymbolicNameKey := Str(bundle.symbolicName.value)];
    table := table[BundleVersionKey := Str(bundle.version)];
    if capability.schemaName.None? {
      return None;
    }
    table := table[SchemaNameKey := capability.schemaName.value];
    table := table[SchemaExpressionKey := Str(cfg.schemaExpression)];
    if capability.schemaResource.None? {
      return None;
    }
    table := table[SchemaResourceKey := Str(capability.schemaResource.value)];
    props := Some(table);
    ghost var e := Entry(bundle, capability);
    assert table == w + WrappedIdentity(w) + SchemaProperties(cfg, e);
  }
}
