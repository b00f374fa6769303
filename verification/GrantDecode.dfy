/** Unique decoding of grant descriptions: an admitted target can be read back from the
    text `Description` prints, up to what the text does not show. */
module GrantDecode {
  import opened Strings
  import opened GrantTarget

  // ---------------------------------------------------------------- the keyword code

  datatype Class = AccountObject | SchemaObject | Schema | BulkAll | BulkFuture | Account | Unknown

  datatype Word = Word(class': Class, text: string)

  function At(s: string, i: nat): (c: char) {
    if i < |s| then s[i] else ' '
  }

  /** The only keyword a description can have after "ON ", told from a few letters: the
      keywords form a prefix code. */
  function KeywordOf(s: string): (w: Word) {
    var c0, c1, c2 := At(s, 0), At(s, 1), At(s, 2);
    if c0 == 'U' then Word(AccountObject, "USER")
    else if c0 == 'W' then Word(AccountObject, "WAREHOUSE")
    else if c0 == 'C' then
      if c2 == 'M' then Word(AccountObject, "COMPUTE POOL") else Word(AccountObject, "CONNECTION")
    else if c0 == 'D' then
      if c1 == 'A' then Word(AccountObject, "DATABASE") else Word(SchemaObject, "DYNAMIC TABLE")
    else if c0 == 'I' then
      if c1 == 'N' then Word(AccountObject, "INTEGRATION") else Word(SchemaObject, "ICEBERG TABLE")
    else if c0 == 'F' then
      if c1 == 'A' then Word(AccountObject, "FAILOVER GROUP")
      else if c1 == 'I' then Word(SchemaObject, "FILE FORMAT")
      else if c2 == 'N' then Word(SchemaObject, "FUNCTION") else Word(BulkFuture, "FUTURE")
    else if c0 == 'R' then
      if c1 == 'O' then Word(SchemaObject, "ROW ACCESS POLICY")
      else if c2 == 'S' then Word(AccountObject, "RESOURCE MONITOR") else Word(AccountObject, "REPLICATION GROUP")
    else if c0 == 'E' then
      if c1 == 'V' then Word(SchemaObject, "EVENT TABLE")
      else if At(s, 9) == 'V' then Word(AccountObject, "EXTERNAL VOLUME") else Word(SchemaObject, "EXTERNAL TABLE")
    else if c0 == 'T' then
      if c2 == 'B' then Word(SchemaObject, "TABLE")
      else if c2 == 'S' then Word(SchemaObject, "TASK") else Word(SchemaObject, "TAG")
    else if c0 == 'V' then Word(SchemaObject, "VIEW")
    else if c0 == 'M' then
      if c1 == 'O' then Word(SchemaObject, "MODEL")
      else if c2 == 'T' then Word(SchemaObject, "MATERIALIZED VIEW") else Word(SchemaObject, "MASKING POLICY")
    else if c0 == 'S' then
      if c1 == 'C' then Word(Schema, "SCHEMA")
      else if c2 == 'A' then Word(SchemaObject, "STAGE")
      else if c2 == 'R' then Word(SchemaObject, "STREAM")
      else if c2 == 'Q' then Word(SchemaObject, "SEQUENCE") else Word(SchemaObject, "SECRET")
    else if c0 == 'P' then
      if c1 == 'R' then Word(SchemaObject, "PROCEDURE") else Word(SchemaObject, "PIPE")
    else if c0 == 'A' then
      if c1 == 'C' then Word(Account, "ACCOUNT")
      else if c2 == 'E' then Word(SchemaObject, "ALERT") else Word(BulkAll, "ALL")
    else Word(Unknown, "")
  }

  /** Likewise for the plural keyword of a bulk grant. */
  function PluralOf(s: string): (p: string) {
    var c0, c1, c2 := At(s, 0), At(s, 1), At(s, 2);
    if c0 == 'T' then (if c2 == 'B' then "TABLES" else if c2 == 'S' then "TASKS" else "TAGS")
    else if c0 == 'V' then "VIEWS"
    else if c0 == 'M' then
      if c1 == 'O' then "MODELS" else if c2 == 'T' then "MATERIALIZED VIEWS" else "MASKING POLICIES"
    else if c0 == 'S' then
      if c1 == 'C' then "SCHEMAS"
      else if c2 == 'A' then "STAGES"
      else if c2 == 'R' then "STREAMS"
      else if c2 == 'Q' then "SEQUENCES" else "SECRETS"
    else if c0 == 'F' then (if c1 == 'I' then "FILE FORMATS" else "FUNCTIONS")
    else if c0 == 'P' then (if c1 == 'R' then "PROCEDURES" else "PIPES")
    else if c0 == 'R' then "ROW ACCESS POLICIES"
    else if c0 == 'A' then "ALERTS"
    else if c0 == 'D' then "DYNAMIC TABLES"
    else if c0 == 'I' then "ICEBERG TABLES"
    else if c1 == 'V' then "EVENT TABLES" else "EXTERNAL TABLES"
  }

  lemma LettersOf(k: string, rest: string)
    requires |k| >= 3
    ensures var s := k + " " + rest;
            && At(s, 0) == k[0] && At(s, 1) == k[1] && At(s, 2) == k[2]
            && (|k| > 9 ==> At(s, 9) == k[9])
  {
  }

  lemma AccountKeywordAt(i: nat, rest: string)
    requires i < |ACCOUNT_OBJECT_TYPES|
    ensures var k := ACCOUNT_OBJECT_TYPES[i]; KeywordOf(k + " " + rest) == Word(AccountObject, k)
  {
    LettersOf(ACCOUNT_OBJECT_TYPES[i], rest);
  }

  lemma SchemaKeywordAt(i: nat, rest: string)
    requires i < |SCHEMA_OBJECT_TYPES|
    ensures var k := SCHEMA_OBJECT_TYPES[i]; KeywordOf(k + " " + rest) == Word(SchemaObject, k)
  {
    LettersOf(SCHEMA_OBJECT_TYPES[i], rest);
  }

  lemma PluralAt(i: nat, rest: string)
    requires i < |PLURAL_TYPES|
    ensures var k := PLURAL_TYPES[i]; PluralOf(k + " " + rest) == k
  {
    LettersOf(PLURAL_TYPES[i], rest);
  }

  // ---------------------------------------------------------------- what a description shows

  /** A printed name: the text itself, or the name of a referenced resource. */
  datatype Name = Raw(text: string) | Ref(name: string)

  /** What the description of a target shows of it. */
  datatype Target =
    | WholeAccount
    | Object(class': Class, keyword: string, name: Name)
    | Bulk(future: bool, plural: string, inSchema: bool, name: Name)

  function ShowName(n: Name): (s: string) {
    match n
    case Raw(text) => text
    case Ref(name) => REF + name + ")"
  }

  function BulkWord(future: bool): (s: string) {
    if future then "FUTURE" else "ALL"
  }

  function ScopeText(inSchema: bool): (s: string) {
    if inSchema then " IN SCHEMA " else " IN DATABASE "
  }

  function Show(t: Target): (s: string) {
    match t
    case WholeAccount => "ON ACCOUNT"
    case Object(_, keyword, name) => "ON " + (keyword + " " + ShowName(name))
    case Bulk(future, plural, inSchema, name) =>
      "ON " + (BulkWord(future) + " " + (plural + (ScopeText(inSchema) + ShowName(name))))
  }

  function NameOf(raw: Option<string>, ref: Option<ObjectReference>): (n: Name)
    requires raw.Some? || ref.Some?
  {
    if raw.Some? then Raw(raw.value) else Ref(ref.value.name)
  }

  function BulkTarget(b: OnBulk, future: bool): (t: Target)
    requires AdmitBulk(b)
  {
    if b.inSchema.Some? || b.inSchemaRef.Some?
    then Bulk(future, b.objectTypePlural, true, NameOf(b.inSchema, b.inSchemaRef))
    else Bulk(future, b.objectTypePlural, false, NameOf(b.inDatabase, b.inDatabaseRef))
  }

  function SchemaTarget(s: OnSchema): (t: Target)
    requires AdmitSchema(s)
  {
    if s.schemaName.Some? || s.schemaRef.Some? then Object(Schema, "SCHEMA", NameOf(s.schemaName, s.schemaRef))
    else if s.allInDatabase.Some? || s.allInDatabaseRef.Some?
    then Bulk(false, "SCHEMAS", false, NameOf(s.allInDatabase, s.allInDatabaseRef))
    else Bulk(true, "SCHEMAS", false, NameOf(s.futureInDatabase, s.futureInDatabaseRef))
  }

  function SchemaObjectTarget(o: OnSchemaObject): (t: Target)
    requires AdmitSchemaObject(o)
  {
    if o.all.Some? then BulkTarget(o.all.value, false)
    else if o.future.Some? then BulkTarget(o.future.value, true)
    else Object(SchemaObject, o.objectType.value, Raw(o.objectName.value))
  }

  function TargetOf(on: GrantOn): (t: Target)
    requires Admit(on)
  {
    if on.account then WholeAccount
    else if on.accountObject.Some?
    then Object(AccountObject, on.accountObject.value.objectType, Raw(on.accountObject.value.objectName))
    else if on.schema.Some? then SchemaTarget(on.schema.value)
    else SchemaObjectTarget(on.schemaObject.value)
  }

  /** No schema object is given with an explicit empty name. */
  predicate Named(on: GrantOn) {
    on.schemaObject.Some? && on.schemaObject.value.objectName.Some? ==> on.schemaObject.value.objectName.value != ""
  }

  lemma TypeNotEmpty(k: string)
    requires k in SCHEMA_OBJECT_TYPES
    ensures k != ""
  {
  }

  lemma BulkShows(b: OnBulk, future: bool)
    requires AdmitBulk(b)
    ensures BulkDescription(b, BulkWord(future)) == Show(BulkTarget(b, future))
  {
    var t := BulkTarget(b, future);
    ShowBulk(future, b.objectTypePlural, t.inSchema, t.name);
    var head := "ON " + BulkWord(future) + " " + b.objectTypePlural;
    if t.inSchema {
      assert BulkDescription(b, BulkWord(future)) == head + " IN SCHEMA " + ShowName(t.name);
    } else {
      assert BulkDescription(b, BulkWord(future)) == head + " IN DATABASE " + ShowName(t.name);
    }
  }

  lemma ShowSchema(n: Name)
    ensures "ON SCHEMA " + ShowName(n) == Show(Object(Schema, "SCHEMA", n))
  {
  }

  lemma ShowBulk(future: bool, plural: string, inSchema: bool, n: Name)
    ensures "ON " + BulkWord(future) + " " + plural + ScopeText(inSchema) + ShowName(n)
         == Show(Bulk(future, plural, inSchema, n))
  {
  }

  lemma SchemasTexts()
    ensures "ON ALL SCHEMAS IN DATABASE " == "ON " + BulkWord(false) + " " + "SCHEMAS" + ScopeText(false)
    ensures "ON FUTURE SCHEMAS IN DATABASE " == "ON " + BulkWord(true) + " " + "SCHEMAS" + ScopeText(false)
  {
  }

  lemma SchemaShows(s: OnSchema)
    requires AdmitSchema(s)
    ensures SchemaDescription(s) == Some(Show(SchemaTarget(s)))
  {
    var t := SchemaTarget(s);
    if t.Object? {
      ShowSchema(t.name);
    } else {
      SchemasTexts();
      ShowBulk(t.future, "SCHEMAS", false, t.name);
    }
  }

  /** A description shows its target, whichever field order the code reads it in. */
  lemma DescriptionShows(on: GrantOn)
    requires Admit(on) && Named(on)
    ensures Description(on) == Show(TargetOf(on))
  {
    if on.account {
    } else if on.accountObject.Some? {
      var t := TargetOf(on);
      assert "ON " + t.keyword + " " + t.name.text == Show(t);
    } else if on.schema.Some? {
      SchemaShows(on.schema.value);
    } else {
      var o := on.schemaObject.value;
      if o.all.Some? {
        BulkShows(o.all.value, false);
      } else if o.future.Some? {
        BulkShows(o.future.value, true);
      } else {
        TypeNotEmpty(o.objectType.value);
        var t := TargetOf(on);
        assert "ON " + t.keyword + " " + t.name.text == Show(t);
      }
    }
  }

  // ---------------------------------------------------------------- reading it back

  function ReadName(s: string): (n: Name) {
    if |s| >= 8 && s[..6] == REF && s[|s| - 1] == ')' then Ref(s[6..|s| - 1]) else Raw(s)
  }

  function ReadBulk(future: bool, s: string): (t: Target) {
    var p := PluralOf(s);
    var n := |p|;
    if At(s, n + 4) == 'S' then Bulk(future, p, true, ReadName(if n + 11 <= |s| then s[n + 11..] else ""))
    else Bulk(future, p, false, ReadName(if n + 13 <= |s| then s[n + 13..] else ""))
  }

  /** The target shown by a description. */
  function Read(d: string): (t: Target) {
    var s := if |d| >= 3 then d[3..] else "";
    var w := KeywordOf(s);
    var rest := if |w.text| + 1 <= |s| then s[|w.text| + 1..] else "";
    match w.class'
    case Account => WholeAccount
    case BulkAll => ReadBulk(false, rest)
    case BulkFuture => ReadBulk(true, rest)
    case Schema => Object(Schema, w.text, ReadName(rest))
    case _ => Object(w.class', w.text, Raw(rest))
  }

  /** A raw name spelled like a reference, "(ref: x)", reads back as one. */
  predicate Plain(n: Name) {
    match n
    case Raw(text) => !(|text| >= 8 && text[..6] == REF && text[|text| - 1] == ')')
    case Ref(name) => name != ""
  }

  predicate Readable(t: Target) {
    match t
    case WholeAccount => true
    case Object(class', keyword, name) =>
      || (class'.AccountObject? && keyword in ACCOUNT_OBJECT_TYPES && name.Raw?)
      || (class'.SchemaObject? && keyword in SCHEMA_OBJECT_TYPES && name.Raw?)
      || (class'.Schema? && keyword == "SCHEMA" && Plain(name))
    case Bulk(_, plural, _, name) => plural in PLURAL_TYPES && Plain(name)
  }

  lemma NameReadBack(n: Name)
    requires Plain(n)
    ensures ReadName(ShowName(n)) == n
  {
  }

  lemma PluralReadBack(plural: string, rest: string)
    requires plural in PLURAL_TYPES
    ensures PluralOf(plural + " " + rest) == plural
  {
    var i :| 0 <= i < |PLURAL_TYPES| && PLURAL_TYPES[i] == plural;
    PluralAt(i, rest);
  }

  lemma KeywordReadBack(class': Class, keyword: string, rest: string)
    requires match class'
             case AccountObject => keyword in ACCOUNT_OBJECT_TYPES
             case SchemaObject => keyword in SCHEMA_OBJECT_TYPES
             case Schema => keyword == "SCHEMA"
             case BulkAll => keyword == "ALL"
             case BulkFuture => keyword == "FUTURE"
             case _ => false
    ensures KeywordOf(keyword + " " + rest) == Word(class', keyword)
  {
    if class'.AccountObject? {
      var i :| 0 <= i < |ACCOUNT_OBJECT_TYPES| && ACCOUNT_OBJECT_TYPES[i] == keyword;
      AccountKeywordAt(i, rest);
    } else if class'.SchemaObject? {
      var i :| 0 <= i < |SCHEMA_OBJECT_TYPES| && SCHEMA_OBJECT_TYPES[i] == keyword;
      SchemaKeywordAt(i, rest);
    } else {
      LettersOf(keyword, rest);
    }
  }

  /** The text after the plural tells the scope and holds the name. */
  lemma ScopeReadBack(plural: string, inSchema: bool, x: string)
    ensures var s := plural + (ScopeText(inSchema) + x);
            && At(s, |plural| + 4) == (if inSchema then 'S' else 'D')
            && s[|plural| + (if inSchema then 11 else 13)..] == x
            && s == plural + " " + (ScopeText(inSchema)[1..] + x)
  {
  }

  lemma BulkReadBack(future: bool, plural: string, inSchema: bool, name: Name)
    requires plural in PLURAL_TYPES && Plain(name)
    ensures ReadBulk(future, plural + (ScopeText(inSchema) + ShowName(name))) == Bulk(future, plural, inSchema, name)
  {
    ScopeReadBack(plural, inSchema, ShowName(name));
    PluralReadBack(plural, ScopeText(inSchema)[1..] + ShowName(name));
    NameReadBack(name);
  }

  lemma ReadKeyword(class': Class, keyword: string, rest: string)
    requires KeywordOf(keyword + " " + rest) == Word(class', keyword)
    ensures Read("ON " + (keyword + " " + rest)) ==
            match class'
            case Account => WholeAccount
            case BulkAll => ReadBulk(false, rest)
            case BulkFuture => ReadBulk(true, rest)
            case Schema => Object(Schema, keyword, ReadName(rest))
            case _ => Object(class', keyword, Raw(rest))
  {
  }

  /** Round trip: what is shown is read back, for every target and any text in it. */
  lemma ReadShow(t: Target)
    requires Readable(t)
    ensures Read(Show(t)) == t
  {
    match t
    case WholeAccount =>
    case Object(class', keyword, name) =>
      KeywordReadBack(class', keyword, ShowName(name));
      ReadKeyword(class', keyword, ShowName(name));
      if class'.Schema? { NameReadBack(name); }
    case Bulk(future, plural, inSchema, name) =>
      var class' := if future then BulkFuture else BulkAll;
      var rest := plural + (ScopeText(inSchema) + ShowName(name));
      KeywordReadBack(class', BulkWord(future), rest);
      ReadKeyword(class', BulkWord(future), rest);
      BulkReadBack(future, plural, inSchema, name);
  }

  // ---------------------------------------------------------------- unique decoding

  predicate SpelledAsRef(s: Option<string>) {
    s.Some? && |s.value| >= 8 && s.value[..6] == REF && s.value[|s.value| - 1] == ')'
  }

  predicate PlainBulk(b: Option<OnBulk>) {
    b.Some? ==> !SpelledAsRef(b.value.inDatabase) && !SpelledAsRef(b.value.inSchema)
  }

  /** No database or schema name is itself spelled "(ref: x)". */
  predicate Unambiguous(on: GrantOn) {
    && (on.schema.Some? ==>
        && !SpelledAsRef(on.schema.value.schemaName) && !SpelledAsRef(on.schema.value.allInDatabase)
        && !SpelledAsRef(on.schema.value.futureInDatabase))
    && (on.schemaObject.Some? ==>
        PlainBulk(on.schemaObject.value.all) && PlainBulk(on.schemaObject.value.future))
  }

  function EraseNamespace(r: Option<ObjectReference>): (e: Option<ObjectReference>) {
    if r.Some? then Some(r.value.(namespace := "")) else None
  }

  function NormalBulk(b: OnBulk): (r: OnBulk) {
    b.(inDatabaseRef := EraseNamespace(b.inDatabaseRef), inSchemaRef := EraseNamespace(b.inSchemaRef))
  }

  function BulkOnly(future: bool, b: OnBulk): (on: GrantOn) {
    GrantOn(false, None, None,
            Some(OnSchemaObject(None, None, if future then None else Some(b), if future then Some(b) else None)))
  }

  /** A target without the two things its description does not tell: the namespaces of
      references, and whether ALL/FUTURE SCHEMAS IN DATABASE was spelled with the fields of
      `schema` or as a bulk grant on SCHEMAS. */
  function Normal(on: GrantOn): (r: GrantOn) {
    if on.schema.Some? then
      var s := on.schema.value;
      if s.allInDatabase.Some? || s.allInDatabaseRef.Some? then
        BulkOnly(false, OnBulk("SCHEMAS", s.allInDatabase, EraseNamespace(s.allInDatabaseRef), None, None))
      else if s.futureInDatabase.Some? || s.futureInDatabaseRef.Some? then
        BulkOnly(true, OnBulk("SCHEMAS", s.futureInDatabase, EraseNamespace(s.futureInDatabaseRef), None, None))
      else on.(schema := Some(s.(schemaRef := EraseNamespace(s.schemaRef))))
    else if on.schemaObject.Some? then
      var o := on.schemaObject.value;
      on.(schemaObject := Some(o.(
        all := if o.all.Some? then Some(NormalBulk(o.all.value)) else None,
        future := if o.future.Some? then Some(NormalBulk(o.future.value)) else None)))
    else on
  }

  function RawOf(n: Name): (r: Option<string>) {
    if n.Raw? then Some(n.text) else None
  }

  function RefOf(n: Name): (r: Option<ObjectReference>) {
    if n.Ref? then Some(ObjectReference(n.name, "")) else None
  }

  /** The normal target that shows as `t`. */
  function Rebuild(t: Target): (on: GrantOn) {
    match t
    case WholeAccount => GrantOn(true, None, None, None)
    case Object(class', keyword, name) =>
      if class'.AccountObject? then GrantOn(false, Some(OnAccountObject(keyword, ShowName(name))), None, None)
      else if class'.Schema? then
        GrantOn(false, None, Some(OnSchema(RawOf(name), RefOf(name), None, None, None, None)), None)
      else GrantOn(false, None, None, Some(OnSchemaObject(Some(keyword), Some(ShowName(name)), None, None)))
    case Bulk(future, plural, inSchema, name) =>
      BulkOnly(future, if inSchema then OnBulk(plural, None, None, RawOf(name), RefOf(name))
                       else OnBulk(plural, RawOf(name), RefOf(name), None, None))
  }

  /** The shown target determines the normal one. */
  lemma RebuildTarget(on: GrantOn)
    requires Admit(on)
    ensures Rebuild(TargetOf(on)) == Normal(on)
  {
  }

  lemma BulkReadable(b: OnBulk, future: bool)
    requires AdmitBulk(b) && PlainBulk(Some(b))
    ensures Readable(BulkTarget(b, future))
  {
  }

  lemma TargetReadable(on: GrantOn)
    requires Admit(on) && Unambiguous(on)
    ensures Readable(TargetOf(on))
  {
    if on.schema.Some? {
      assert PLURAL_TYPES[21] == "SCHEMAS";
    } else if on.schemaObject.Some? {
      var o := on.schemaObject.value;
      if o.all.Some? {
        BulkReadable(o.all.value, false);
      } else if o.future.Some? {
        BulkReadable(o.future.value, true);
      }
    }
  }

  /** Normalising changes nothing that is shown. */
  lemma NormalShowsSame(on: GrantOn)
    requires Admit(on)
    ensures Admit(Normal(on)) && TargetOf(Normal(on)) == TargetOf(on)
    ensures Named(on) ==> Named(Normal(on))
  {
  }

  /** Unique decoding: two admitted, unambiguous, named targets print the same description
      if and only if they are the same target up to reference namespaces and the two
      spellings of the SCHEMAS bulk grants. */
  lemma UniqueDecoding(a: GrantOn, b: GrantOn)
    requires Admit(a) && Named(a) && Unambiguous(a)
    requires Admit(b) && Named(b) && Unambiguous(b)
    ensures Description(a) == Description(b) <==> Normal(a) == Normal(b)
  {
    DescriptionShows(a);
    DescriptionShows(b);
    TargetReadable(a);
    TargetReadable(b);
    ReadShow(TargetOf(a));
    ReadShow(TargetOf(b));
    RebuildTarget(a);
    RebuildTarget(b);
    NormalShowsSame(a);
    NormalShowsSame(b);
  }

  /** The name of the shown target, read as the reference it is spelled like. */
  function AsRef(t: Target): (r: Target) {
    match t
    case WholeAccount => t
    case Object(class', keyword, name) => Object(class', keyword, ReadName(ShowName(name)))
    case Bulk(future, plural, inSchema, name) => Bulk(future, plural, inSchema, ReadName(ShowName(name)))
  }

  lemma ShowNameRead(n: Name)
    ensures ShowName(ReadName(ShowName(n))) == ShowName(n)
  {
  }

  lemma AmbiguousShape(on: GrantOn)
    requires Admit(on) && !Unambiguous(on)
    ensures var t := TargetOf(on);
            && (t.Bulk? || (t.Object? && t.class'.Schema? && t.keyword == "SCHEMA"))
            && t.name.Raw? && AsRef(t).name.Ref? && AsRef(t).name.name != ""
            && (t.Bulk? ==> t.plural in PLURAL_TYPES)
  {
  }

  /** A reference target in normal form shows as itself. */
  lemma RefTarget(t: Target)
    requires t.Bulk? || (t.Object? && t.class'.Schema? && t.keyword == "SCHEMA")
    requires t.name.Ref? && t.name.name != "" && (t.Bulk? ==> t.plural in PLURAL_TYPES)
    ensures Admit(Rebuild(t)) && TargetOf(Rebuild(t)) == t && Named(Rebuild(t))
  {
  }

  /** The restriction to unambiguous names is needed in every position: a target with a name
      spelled "(ref: x)" always collides with the one that refers to x. */
  lemma AmbiguousCollides(on: GrantOn)
    requires Admit(on) && Named(on) && !Unambiguous(on)
    ensures var twin := Rebuild(AsRef(TargetOf(on)));
            Admit(twin) && Description(twin) == Description(on) && Normal(twin) != Normal(on)
  {
    var t := TargetOf(on);
    var twin := Rebuild(AsRef(t));
    AmbiguousShape(on);
    RefTarget(AsRef(t));
    DescriptionShows(on);
    DescriptionShows(twin);
    ShowNameRead(t.name);
    assert TargetOf(twin) != TargetOf(on);
    NormalShowsSame(on);
    NormalShowsSame(twin);
  }

  /** The fallback text appears exactly for a schema object whose name is the explicit empty
      string, which the admission rules let through. */
  lemma UnknownIff(on: GrantOn)
    requires Admit(on)
    ensures Description(on) == UNKNOWN <==> !Named(on)
  {
    if Named(on) {
      DescriptionShows(on);
      ShowNotUnknown(TargetOf(on));
    } else {
      assert on.schemaObject.value.all.None? && on.schemaObject.value.future.None?;
    }
  }

  lemma ShowNotUnknown(t: Target)
    requires t.WholeAccount? || t.Bulk? ||
             (t.Object? && (t.keyword == "SCHEMA" || t.keyword in ACCOUNT_OBJECT_TYPES || t.keyword in SCHEMA_OBJECT_TYPES))
    ensures Show(t) != UNKNOWN
  {
    match t
    case WholeAccount =>
    case Object(_, keyword, name) =>
      KeywordLetter(keyword);
      assert Show(t)[3] == keyword[0];
    case Bulk(future, plural, inSchema, name) =>
      assert Show(t)[3] == BulkWord(future)[0];
  }

  lemma KeywordLetter(k: string)
    requires k == "SCHEMA" || k in ACCOUNT_OBJECT_TYPES || k in SCHEMA_OBJECT_TYPES
    ensures |k| > 0 && k[0] != '<'
  {
  }

  // ---------------------------------------------------------------- the kind can be read off

  lemma NotBulk(class': Class, keyword: string, rest: string)
    requires KeywordOf(keyword + " " + rest) == Word(class', keyword) && !class'.BulkAll? && !class'.BulkFuture?
    ensures var d := "ON " + (keyword + " " + rest); !("ON FUTURE " <= d) && !("ON ALL " <= d)
  {
    var d := "ON " + (keyword + " " + rest);
    var s := keyword + " " + rest;
    if |d| >= 6 {
      assert d[3] == At(s, 0) && d[4] == At(s, 1) && d[5] == At(s, 2);
    }
  }

  lemma BulkPrefix(future: bool, plural: string, inSchema: bool, name: Name)
    ensures var d := Show(Bulk(future, plural, inSchema, name));
            ("ON FUTURE " <= d <==> future) && ("ON ALL " <= d <==> !future)
  {
    BulkWordPrefix(future, plural + (ScopeText(inSchema) + ShowName(name)));
  }

  lemma BulkWordPrefix(future: bool, rest: string)
    ensures var d := "ON " + (BulkWord(future) + " " + rest);
            ("ON FUTURE " <= d <==> future) && ("ON ALL " <= d <==> !future)
  {
    var d := "ON " + (BulkWord(future) + " " + rest);
    assert d[3] == BulkWord(future)[0];
    if future {
      assert d == "ON FUTURE " + rest;
    } else {
      assert d == "ON ALL " + rest;
    }
  }

  /** Although the two functions read the fields in different orders, the kind of an admitted
      target is exactly what its description begins with. */
  lemma KindFromDescription(on: GrantOn)
    requires Admit(on)
    ensures ResolveKind(on).Future? <==> "ON FUTURE " <= Description(on)
    ensures ResolveKind(on).All? <==> "ON ALL " <= Description(on)
  {
    if !Named(on) {
      UnknownIff(on);
      assert Description(on)[3] == '<';
    } else {
      DescriptionShows(on);
      var t := TargetOf(on);
      if t.Bulk? {
        BulkPrefix(t.future, t.plural, t.inSchema, t.name);
      } else if t.Object? {
        KeywordReadBack(t.class', t.keyword, ShowName(t.name));
        NotBulk(t.class', t.keyword, ShowName(t.name));
      } else {
        assert Description(on)[3] == 'A' && Description(on)[4] == 'C';
      }
    }
  }

  /** Only the admission rules make them agree: with both bulk fields set, the kind is Future
      and the description says ALL. */
  lemma KindNeedsAdmission()
    ensures var b := OnBulk("TABLES", Some("DB"), None, None, None);
            var on := GrantOn(false, None, None, Some(OnSchemaObject(None, None, Some(b), Some(b))));
            ResolveKind(on).Future? && "ON ALL " <= Description(on)
  {
  }
}
