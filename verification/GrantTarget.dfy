/** The target of a grant (api/v1alpha1/grant_types.go): a nested union encoded as optional
    fields, the CEL rules that admit it, its kind and its printed description. */
module GrantTarget {
  import opened Strings

  datatype GrantKind = Regular | Future | All

  datatype ObjectReference = ObjectReference(name: string, namespace: string)

  datatype OnAccountObject = OnAccountObject(objectType: string, objectName: string)

  datatype OnSchema = OnSchema(
    schemaName: Option<string>, schemaRef: Option<ObjectReference>,
    allInDatabase: Option<string>, allInDatabaseRef: Option<ObjectReference>,
    futureInDatabase: Option<string>, futureInDatabaseRef: Option<ObjectReference>)

  datatype OnBulk = OnBulk(
    objectTypePlural: string,
    inDatabase: Option<string>, inDatabaseRef: Option<ObjectReference>,
    inSchema: Option<string>, inSchemaRef: Option<ObjectReference>)

  /** An absent `objectType` or `objectName` reads as "" in Go. */
  datatype OnSchemaObject = OnSchemaObject(
    objectType: Option<string>, objectName: Option<string>, all: Option<OnBulk>, future: Option<OnBulk>)

  datatype GrantOn = GrantOn(
    account: bool, accountObject: Option<OnAccountObject>,
    schema: Option<OnSchema>, schemaObject: Option<OnSchemaObject>)

  /** The target of a database role grant. */
  datatype DatabaseRoleOn = DatabaseRoleOn(
    database: Option<string>, schema: Option<OnSchema>, schemaObject: Option<OnSchemaObject>)

  // ---------------------------------------------------------------- enums

  const ACCOUNT_OBJECT_TYPES: seq<string> := [
    "USER", "RESOURCE MONITOR", "WAREHOUSE", "COMPUTE POOL", "DATABASE", "INTEGRATION", "CONNECTION",
    "FAILOVER GROUP", "REPLICATION GROUP", "EXTERNAL VOLUME"]

  const SCHEMA_OBJECT_TYPES: seq<string> := [
    "TABLE", "VIEW", "MATERIALIZED VIEW", "STAGE", "FILE FORMAT", "FUNCTION", "PROCEDURE", "STREAM", "TASK",
    "PIPE", "SEQUENCE", "TAG", "MASKING POLICY", "ROW ACCESS POLICY", "ALERT", "SECRET", "MODEL",
    "DYNAMIC TABLE", "ICEBERG TABLE", "EVENT TABLE", "EXTERNAL TABLE"]

  const PLURAL_TYPES: seq<string> := [
    "TABLES", "VIEWS", "MATERIALIZED VIEWS", "STAGES", "FILE FORMATS", "FUNCTIONS", "PROCEDURES", "STREAMS",
    "TASKS", "PIPES", "SEQUENCES", "TAGS", "MASKING POLICIES", "ROW ACCESS POLICIES", "ALERTS", "SECRETS",
    "MODELS", "DYNAMIC TABLES", "ICEBERG TABLES", "EVENT TABLES", "EXTERNAL TABLES", "SCHEMAS"]

  // ---------------------------------------------------------------- admission

  function One(b: bool): (n: int) {
    if b then 1 else 0
  }

  predicate NonEmpty(s: Option<string>) {
    s.Some? ==> s.value != ""
  }

  predicate RefOk(r: Option<ObjectReference>) {
    r.Some? ==> r.value.name != ""
  }

  predicate AdmitSchema(s: OnSchema) {
    && One(s.schemaName.Some?) + One(s.schemaRef.Some?) + One(s.allInDatabase.Some?)
       + One(s.allInDatabaseRef.Some?) + One(s.futureInDatabase.Some?) + One(s.futureInDatabaseRef.Some?) == 1
    && NonEmpty(s.schemaName) && NonEmpty(s.allInDatabase) && NonEmpty(s.futureInDatabase)
    && RefOk(s.schemaRef) && RefOk(s.allInDatabaseRef) && RefOk(s.futureInDatabaseRef)
  }

  predicate AdmitBulk(b: OnBulk) {
    && b.objectTypePlural in PLURAL_TYPES
    && !(b.inDatabase.Some? && b.inDatabaseRef.Some?)
    && !(b.inSchema.Some? && b.inSchemaRef.Some?)
    && One(b.inDatabase.Some? || b.inDatabaseRef.Some?) + One(b.inSchema.Some? || b.inSchemaRef.Some?) == 1
    && NonEmpty(b.inDatabase) && NonEmpty(b.inSchema) && RefOk(b.inDatabaseRef) && RefOk(b.inSchemaRef)
  }

  /** `objectName` carries no minimum length: an explicit empty string is admitted. */
  predicate AdmitSchemaObject(o: OnSchemaObject) {
    && o.objectType.Some? == o.objectName.Some?
    && One(o.objectType.Some? && o.objectName.Some?) + One(o.all.Some?) + One(o.future.Some?) == 1
    && (o.objectType.Some? ==> o.objectType.value in SCHEMA_OBJECT_TYPES)
    && (o.all.Some? ==> AdmitBulk(o.all.value))
    && (o.future.Some? ==> AdmitBulk(o.future.value))
  }

  predicate Admit(on: GrantOn) {
    && One(on.account) + One(on.accountObject.Some?) + One(on.schema.Some?) + One(on.schemaObject.Some?) == 1
    && (on.accountObject.Some? ==>
        on.accountObject.value.objectType in ACCOUNT_OBJECT_TYPES && on.accountObject.value.objectName != "")
    && (on.schema.Some? ==> AdmitSchema(on.schema.value))
    && (on.schemaObject.Some? ==> AdmitSchemaObject(on.schemaObject.value))
  }

  predicate AdmitDatabaseRoleOn(on: DatabaseRoleOn) {
    && One(on.database.Some? && |on.database.value| > 0) + One(on.schema.Some?) + One(on.schemaObject.Some?) == 1
    && NonEmpty(on.database)
    && (on.schema.Some? ==> AdmitSchema(on.schema.value))
    && (on.schemaObject.Some? ==> AdmitSchemaObject(on.schemaObject.value))
  }

  // ---------------------------------------------------------------- kind and description

  /** `resolveGrantKind`. */
  function ResolveKind(on: GrantOn): (k: GrantKind) {
    if on.schema.Some? && (on.schema.value.futureInDatabase.Some? || on.schema.value.futureInDatabaseRef.Some?)
    then Future
    else if on.schemaObject.Some? && on.schemaObject.value.future.Some? then Future
    else if on.schema.Some? && (on.schema.value.allInDatabase.Some? || on.schema.value.allInDatabaseRef.Some?)
    then All
    else if on.schemaObject.Some? && on.schemaObject.value.all.Some? then All
    else Regular
  }

  const REF := "(ref: "

  function ShowRef(r: ObjectReference): (s: string) {
    REF + r.name + ")"
  }

  /** `GrantOnBulk.description`. */
  function BulkDescription(b: OnBulk, keyword: string): (s: string) {
    if b.inSchema.Some? then "ON " + keyword + " " + b.objectTypePlural + " IN SCHEMA " + b.inSchema.value
    else if b.inSchemaRef.Some? then
      "ON " + keyword + " " + b.objectTypePlural + " IN SCHEMA " + ShowRef(b.inSchemaRef.value)
    else if b.inDatabase.Some? then
      "ON " + keyword + " " + b.objectTypePlural + " IN DATABASE " + b.inDatabase.value
    else if b.inDatabaseRef.Some? then
      "ON " + keyword + " " + b.objectTypePlural + " IN DATABASE " + ShowRef(b.inDatabaseRef.value)
    else "ON " + keyword + " " + b.objectTypePlural
  }

  /** The schema branch of `GrantOn.Description`, or nothing when no field is set. */
  function SchemaDescription(s: OnSchema): (d: Option<string>) {
    if s.schemaName.Some? then Some("ON SCHEMA " + s.schemaName.value)
    else if s.schemaRef.Some? then Some("ON SCHEMA " + ShowRef(s.schemaRef.value))
    else if s.allInDatabase.Some? then Some("ON ALL SCHEMAS IN DATABASE " + s.allInDatabase.value)
    else if s.allInDatabaseRef.Some? then Some("ON ALL SCHEMAS IN DATABASE " + ShowRef(s.allInDatabaseRef.value))
    else if s.futureInDatabase.Some? then Some("ON FUTURE SCHEMAS IN DATABASE " + s.futureInDatabase.value)
    else if s.futureInDatabaseRef.Some? then
      Some("ON FUTURE SCHEMAS IN DATABASE " + ShowRef(s.futureInDatabaseRef.value))
    else None
  }

  const UNKNOWN := "ON <unknown>"

  /** The schema object branch of `GrantOn.Description`. */
  function SchemaObjectDescription(o: OnSchemaObject): (d: string) {
    if OrEmpty(o.objectType) != "" && OrEmpty(o.objectName) != "" then
      "ON " + OrEmpty(o.objectType) + " " + OrEmpty(o.objectName)
    else if o.all.Some? then BulkDescription(o.all.value, "ALL")
    else if o.future.Some? then BulkDescription(o.future.value, "FUTURE")
    else UNKNOWN
  }

  /** `GrantOn.Description`. */
  function Description(on: GrantOn): (d: string) {
    if on.account then "ON ACCOUNT"
    else if on.accountObject.Some? then
      "ON " + on.accountObject.value.objectType + " " + on.accountObject.value.objectName
    else if on.schema.Some? && SchemaDescription(on.schema.value).Some? then
      SchemaDescription(on.schema.value).value
    else if on.schemaObject.Some? then SchemaObjectDescription(on.schemaObject.value)
    else UNKNOWN
  }

  /** Outside the admission rules: a bulk grant without a scope says no scope, and a schema object with
      only a type or only a name is not described by it. */
  lemma UnadmittedDescriptions(b: OnBulk, o: OnSchemaObject)
    ensures b.inSchema.None? && b.inSchemaRef.None? && b.inDatabase.None? && b.inDatabaseRef.None? ==>
            BulkDescription(b, "ALL") == "ON ALL " + b.objectTypePlural
    ensures o.all.None? && o.future.None? && (OrEmpty(o.objectType) == "" || OrEmpty(o.objectName) == "") ==>
            SchemaObjectDescription(o) == "ON <unknown>"
  {
  }

  /** `GrantPrivilegesToDatabaseRoleOn.Description`. */
  function DatabaseRoleDescription(on: DatabaseRoleOn): (d: string) {
    if on.database.Some? then "ON DATABASE " + on.database.value
    else Description(GrantOn(false, None, on.schema, on.schemaObject))
  }

  /** `GrantPrivilegesToDatabaseRoleOn.ResolveKind`, a second copy of the kind rules. */
  function DatabaseRoleKind(on: DatabaseRoleOn): (k: GrantKind) {
    if on.schema.Some? && (on.schema.value.futureInDatabase.Some? || on.schema.value.futureInDatabaseRef.Some?)
    then Future
    else if on.schemaObject.Some? && on.schemaObject.value.future.Some? then Future
    else if on.schema.Some? && (on.schema.value.allInDatabase.Some? || on.schema.value.allInDatabaseRef.Some?)
    then All
    else if on.schemaObject.Some? && on.schemaObject.value.all.Some? then All
    else Regular
  }

  /** The account-role target that a database-role target stands for. */
  function Embed(on: DatabaseRoleOn): (g: GrantOn) {
    GrantOn(false, if on.database.Some? then Some(OnAccountObject("DATABASE", on.database.value)) else None,
            on.schema, on.schemaObject)
  }

  /** A database-role target is admitted, described and classified like the account-role
      target it stands for. */
  lemma EmbedAgrees(on: DatabaseRoleOn)
    requires AdmitDatabaseRoleOn(on)
    ensures Admit(Embed(on))
    ensures DatabaseRoleDescription(on) == Description(Embed(on))
    ensures DatabaseRoleKind(on) == ResolveKind(Embed(on))
  {
  }
}
