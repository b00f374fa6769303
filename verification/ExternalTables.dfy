/** External tables (api/v1alpha1/external_table_types.go): which specs a resource can become by
    admitted updates. */
module ExternalTables {
  import opened GrantTarget
  import opened Lifecycle
  import opened Strings

  datatype Column = Column(name: string, type': string, as': string)

  /** The fields of the spec, without the policies shared by all kinds. */
  datatype ExternalTable = ExternalTable(
    name: string, databaseRef: Option<ObjectReference>, databaseName: Option<string>,
    schemaRef: Option<ObjectReference>, schemaName: Option<string>, useRole: Option<string>,
    location: string, fileFormat: string,
    columns: Option<seq<Column>>, partitionBy: Option<seq<string>>,
    partitionType: Option<string>, pattern: Option<string>, refreshOnCreate: Option<bool>,
    autoRefresh: Option<bool>, awsSnsTopic: Option<string>, tableFormat: Option<string>,
    integration: Option<string>, comment: Option<string>)

  /** A name without dots or a reference, and not both. */
  predicate OneSource(ref: Option<ObjectReference>, name: Option<string>) {
    ref.Some? != name.Some? && RefOk(ref) && NonEmpty(name) && (name.Some? ==> '.' !in name.value)
  }

  predicate Admit(t: ExternalTable) {
    && t.name != "" && t.location != "" && t.fileFormat != "" && NonEmpty(t.useRole)
    && (t.columns.Some? ==> forall c :: c in t.columns.value ==> c.name != "" && c.type' != "" && c.as' != "")
    && OneSource(t.databaseRef, t.databaseName) && OneSource(t.schemaRef, t.schemaName)
    && (t.partitionType.Some? ==> t.partitionType.value == "USER_SPECIFIED")
    && (t.tableFormat.Some? ==> t.tableFormat.value == "DELTA")
  }

  predicate Update(s: ExternalTable, t: ExternalTable) {
    && Admit(t) && t.name == s.name && t.location == s.location && t.fileFormat == s.fileFormat
    && Immutable(s.databaseRef, t.databaseRef) && Immutable(s.databaseName, t.databaseName)
    && Immutable(s.schemaRef, t.schemaRef) && Immutable(s.schemaName, t.schemaName)
    && Immutable(s.useRole, t.useRole)
    && WeaklyImmutable(s.columns, t.columns) && WeaklyImmutable(s.partitionBy, t.partitionBy)
    && Immutable(s.partitionType, t.partitionType) && Immutable(s.pattern, t.pattern)
    && Immutable(s.refreshOnCreate, t.refreshOnCreate) && Immutable(s.awsSnsTopic, t.awsSnsTopic)
    && Immutable(s.tableFormat, t.tableFormat) && Immutable(s.integration, t.integration)
    && Immutable(s.comment, t.comment)
  }

  /** Some run of admitted updates leads from one spec to the other. */
  ghost predicate Reachable(s: ExternalTable, t: ExternalTable) {
    exists run: seq<ExternalTable> :: IsRun(run, x => x == s, Update) && run[|run| - 1] == t
  }

  /** The same table but for the three fields that can change. */
  predicate SameFixed(s: ExternalTable, t: ExternalTable) {
    t == s.(columns := t.columns, partitionBy := t.partitionBy, autoRefresh := t.autoRefresh)
  }

  /** Reachability, exactly: from an admitted spec another admitted one can be reached if and only if
      the two agree outside `autoRefresh`, documented as the only mutable field, and `columns` and
      `partitionBy`, documented as immutable. */
  lemma ReachableIff(s: ExternalTable, t: ExternalTable)
    requires Admit(s)
    ensures Reachable(s, t) <==> Admit(t) && SameFixed(s, t)
  {
    if Admit(t) && SameFixed(s, t) {
      var run := [s, s.(columns := None, partitionBy := None), t];
      assert Update(run[0], run[1]) && Update(run[1], run[2]);
      assert IsRun(run, x => x == s, Update) && run[|run| - 1] == t;
    }
    forall run: seq<ExternalTable> | IsRun(run, x => x == s, Update) && run[|run| - 1] == t
      ensures Admit(t) && SameFixed(s, t)
    {
      AlongRun(run, x => x == s, Update, (x: ExternalTable) => Admit(x) && SameFixed(s, x), |run| - 1);
    }
  }
}
