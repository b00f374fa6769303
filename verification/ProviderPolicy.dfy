/** ProviderConfig (api/v1alpha1/providerconfig_types.go): validation against the CEL rules,
    and the four allowlist searches. */
module ProviderPolicy {
  import opened Strings
  import CommonSpec
  import TokenPath

  // ---------------------------------------------------------------- the spec

  datatype SecretKeyReference = SecretKeyReference(name: string, namespace: string, key: string)

  datatype Credentials = Credentials(secretRef: Option<SecretKeyReference>, passphraseKey: Option<string>)

  datatype WorkloadIdentity = WorkloadIdentity(provider: string, tokenFilePath: string)

  /** `credentials` is optional in the API object; Go decodes an absent one to its zero value. */
  datatype Spec = Spec(
    account: string, user: string, authenticationType: string,
    credentials: Option<Credentials>, workloadIdentity: Option<WorkloadIdentity>)

  const KEY_PAIR := "KeyPair"
  const USERNAME_PASSWORD := "UsernamePassword"
  const WORKLOAD_IDENTITY := "WorkloadIdentity"

  const OIDC := "OIDC"
  const PROVIDERS: seq<string> := ["", OIDC, "AWS", "GCP", "Azure"]

  function GetTokenFilePath(w: WorkloadIdentity): (p: string) {
    if w.tokenFilePath != "" then w.tokenFilePath else TokenPath.DEFAULT_TOKEN_PATH
  }

  function GetProvider(w: WorkloadIdentity): (p: string) {
    if w.provider != "" then w.provider else OIDC
  }

  // ---------------------------------------------------------------- the CEL rules

  /** has(credentials) && has(credentials.secretRef) && size(name) > 0 && size(key) > 0 */
  predicate HasSecret(s: Spec) {
    && s.credentials.Some? && s.credentials.value.secretRef.Some?
    && |s.credentials.value.secretRef.value.name| > 0 && |s.credentials.value.secretRef.value.key| > 0
  }

  predicate CelKeyPair(s: Spec) {
    s.authenticationType != KEY_PAIR || HasSecret(s)
  }

  predicate CelUsernamePassword(s: Spec) {
    s.authenticationType != USERNAME_PASSWORD || HasSecret(s)
  }

  predicate CelWorkloadIdentity(s: Spec) {
    s.authenticationType != WORKLOAD_IDENTITY || s.workloadIdentity.Some?
  }

  predicate CelNoSecret(s: Spec) {
    s.authenticationType != WORKLOAD_IDENTITY || !s.credentials.Some? || !s.credentials.value.secretRef.Some?
    || |s.credentials.value.secretRef.value.name| == 0
  }

  predicate CelPassphrase(s: Spec) {
    !s.credentials.Some? || !s.credentials.value.passphraseKey.Some?
    || |s.credentials.value.passphraseKey.value| == 0 || s.authenticationType == KEY_PAIR
  }

  predicate CelAdmits(s: Spec) {
    CelKeyPair(s) && CelUsernamePassword(s) && CelWorkloadIdentity(s) && CelNoSecret(s) && CelPassphrase(s)
  }

  /** The part of the contract that CEL does not state: where the token file may lie. */
  predicate TokenFileConfined(w: WorkloadIdentity) {
    (w.provider == "" || w.provider == "OIDC") && w.tokenFilePath != "" ==>
      "/" <= w.tokenFilePath && TokenPath.SECRETS < TokenPath.Location(w.tokenFilePath)
  }

  const TYPES: seq<string> := [KEY_PAIR, USERNAME_PASSWORD, WORKLOAD_IDENTITY]

  /** The enum on the authentication type, the five CEL rules, and for workload identity the
      provider and the place of the token file. */
  predicate Conforms(s: Spec) {
    && s.authenticationType in TYPES && CelAdmits(s)
    && (s.authenticationType == WORKLOAD_IDENTITY ==>
        s.workloadIdentity.value.provider in PROVIDERS && TokenFileConfined(s.workloadIdentity.value))
  }

  // ---------------------------------------------------------------- Validate

  datatype Error =
    | AccountRequired | UserRequired | UnknownAuthentication | SecretRequired | PassphraseNotAllowed
    | WorkloadIdentityRequired | TokenPathOutside | UnknownProvider | SecretNotAllowed

  /** Which rule an error stands for. */
  predicate Violated(s: Spec, e: Error) {
    match e
    case AccountRequired => s.account == ""
    case UserRequired => s.user == ""
    case UnknownAuthentication => s.authenticationType !in [""] + TYPES
    case SecretRequired => !(CelKeyPair(s) && CelUsernamePassword(s))
    case PassphraseNotAllowed =>
      !CelPassphrase(s) && s.authenticationType in [USERNAME_PASSWORD, WORKLOAD_IDENTITY]
    case WorkloadIdentityRequired => !CelWorkloadIdentity(s)
    case TokenPathOutside =>
      s.authenticationType == WORKLOAD_IDENTITY && s.workloadIdentity.Some? && !TokenFileConfined(s.workloadIdentity.value)
    case UnknownProvider =>
      s.authenticationType == WORKLOAD_IDENTITY && s.workloadIdentity.Some?
      && s.workloadIdentity.value.provider !in PROVIDERS
    case SecretNotAllowed => !CelNoSecret(s)
  }

  function SecretRef(s: Spec): (r: Option<SecretKeyReference>) {
    if s.credentials.Some? then s.credentials.value.secretRef else None
  }

  function PassphraseKey(s: Spec): (k: string) {
    if s.credentials.Some? then OrEmpty(s.credentials.value.passphraseKey) else ""
  }

  /** `Validate`: an error is reported if and only if its rule is violated.  An empty
      authentication type passes `validateEnum` and selects no case of the switch, so with it
      nothing but account and user is checked. */
  method Validate(s: Spec) returns (errs: seq<Error>)
    ensures forall e :: e in errs <==> Violated(s, e)
    ensures errs == [] <==> s.account != "" && s.user != "" && (s.authenticationType == "" || Conforms(s))
    ensures TokenPathOutside in errs <==>
            && s.authenticationType == "WorkloadIdentity" && s.workloadIdentity.Some?
            && (s.workloadIdentity.value.provider == "" || s.workloadIdentity.value.provider == "OIDC")
            && var path := s.workloadIdentity.value.tokenFilePath;
               path != "" && !("/" <= path && TokenPath.SECRETS < TokenPath.Location(path))
  {
    errs := [];
    if s.account == "" {
      errs := errs + [AccountRequired];
    }
    if s.user == "" {
      errs := errs + [UserRequired];
    }
    var known := CommonSpec.ValidateEnum(Some(s.authenticationType), TYPES);
    if !known {
      errs := errs + [UnknownAuthentication];
    }
    TypesDiffer();
    if s.authenticationType == KEY_PAIR {
      if SecretRef(s).None? || SecretRef(s).value.name == "" || SecretRef(s).value.key == "" {
        errs := errs + [SecretRequired];
      }
    } else if s.authenticationType == USERNAME_PASSWORD {
      if PassphraseKey(s) != "" {
        errs := errs + [PassphraseNotAllowed];
      }
      if SecretRef(s).None? || SecretRef(s).value.name == "" || SecretRef(s).value.key == "" {
        errs := errs + [SecretRequired];
      }
    } else if s.authenticationType == WORKLOAD_IDENTITY {
      var workload := ValidateWorkload(s);
      errs := errs + workload;
    }
    AcceptedIff(s);
    assert errs == [] <==> forall e :: e !in errs by {
      if errs != [] { assert errs[0] in errs; }
    }
  }

  /** The workload identity case. */
  method ValidateWorkload(s: Spec) returns (errs: seq<Error>)
    requires s.authenticationType == WORKLOAD_IDENTITY
    ensures forall e :: e in errs <==>
            Violated(s, e) && !e.AccountRequired? && !e.UserRequired?
  {
    TypesDiffer();
    errs := [];
    if PassphraseKey(s) != "" {
      errs := errs + [PassphraseNotAllowed];
    }
    if s.workloadIdentity.None? {
      errs := errs + [WorkloadIdentityRequired];
    } else {
      var more := ValidateIdentity(s.workloadIdentity.value);
      errs := errs + more;
    }
    if SecretRef(s).Some? && SecretRef(s).value.name != "" {
      errs := errs + [SecretNotAllowed];
    }
  }

  /** The token path and the provider of a workload identity. */
  method ValidateIdentity(w: WorkloadIdentity) returns (errs: seq<Error>)
    ensures forall e :: e in errs <==>
            (e == TokenPathOutside && !TokenFileConfined(w)) || (e == UnknownProvider && w.provider !in PROVIDERS)
  {
    errs := [];
    if GetProvider(w) == OIDC {
      var tokenPath := GetTokenFilePath(w);
      var cleaned := TokenPath.Clean(tokenPath);
      TokenPath.ConfinedIff(tokenPath);
      if w.tokenFilePath == "" {
        DefaultTokenPathAccepted(w);
      }
      if !(TokenPath.SECRETS_PREFIX <= cleaned) {
        errs := errs + [TokenPathOutside];
      }
    }
    var p := w.provider;
    if p != "" && p != OIDC && p != "AWS" && p != "GCP" && p != "Azure" {
      errs := errs + [UnknownProvider];
    }
  }

  lemma TypesDiffer()
    ensures KEY_PAIR != USERNAME_PASSWORD && KEY_PAIR != WORKLOAD_IDENTITY && USERNAME_PASSWORD != WORKLOAD_IDENTITY
  {
    assert KEY_PAIR[0] != USERNAME_PASSWORD[0] && KEY_PAIR[0] != WORKLOAD_IDENTITY[0];
    assert USERNAME_PASSWORD[0] != WORKLOAD_IDENTITY[0];
  }

  /** `Validate` has nothing to report. */
  ghost predicate Accepted(s: Spec) {
    forall e :: !Violated(s, e)
  }

  lemma AcceptedIff(s: Spec)
    ensures Accepted(s) <==> s.account != "" && s.user != "" && (s.authenticationType == "" || Conforms(s))
  {
    if Accepted(s) {
      assert !Violated(s, AccountRequired) && !Violated(s, UserRequired) && !Violated(s, UnknownAuthentication);
      assert !Violated(s, SecretRequired) && !Violated(s, PassphraseNotAllowed);
      assert !Violated(s, WorkloadIdentityRequired) && !Violated(s, TokenPathOutside);
      assert !Violated(s, UnknownProvider) && !Violated(s, SecretNotAllowed);
    }
  }

  /** The Go validation and the rules it stands for agree exactly on the specs with an
      authentication type. */
  lemma RulesAgreeIff(s: Spec)
    requires s.account != "" && s.user != ""
    ensures (Accepted(s) <==> Conforms(s)) <==> s.authenticationType != ""
  {
    AcceptedIff(s);
  }

  /** Without one it accepts even what the CEL rules reject, here a passphrase key. */
  lemma EmptyTypeAccepted()
    ensures var s := Spec("acct", "user", "", Some(Credentials(None, Some("key"))), None);
            Accepted(s) && !CelPassphrase(s) && !Conforms(s)
  {
    AcceptedIff(Spec("acct", "user", "", Some(Credentials(None, Some("key"))), None));
  }

  /** What the API server admits: the enums, the minimum length of a secret's name and key, and the
      CEL rules, with no condition on the token file. */
  predicate SchemaAdmits(s: Spec) {
    && s.authenticationType in TYPES && CelAdmits(s)
    && (s.workloadIdentity.Some? ==> s.workloadIdentity.value.provider in PROVIDERS)
    && (SecretRef(s).Some? ==> SecretRef(s).value.name != "" && SecretRef(s).value.key != "")
  }

  /** A workload identity that the authentication type does not use names an unknown provider. */
  predicate StrayProvider(s: Spec) {
    && s.authenticationType != WORKLOAD_IDENTITY
    && s.workloadIdentity.Some? && s.workloadIdentity.value.provider !in PROVIDERS
  }

  /** Where Go and the API server look at different things for a workload identity: a token file
      outside its place is rejected by Go only, a secret reference with a blank name, the one kind
      the CEL rules let through, by the schema only. */
  predicate SplitOpinion(s: Spec) {
    && s.authenticationType == WORKLOAD_IDENTITY && s.workloadIdentity.Some?
    && s.workloadIdentity.value.provider in PROVIDERS
    && (TokenFileConfined(s.workloadIdentity.value) <==> SecretRef(s).Some?)
  }

  /** Go and the API server agree on a spec unless the type is empty, or the rules hold and either
      an unused workload identity names an unknown provider, which only the schema sees, or
      exactly one of the two objections to a workload identity applies. */
  lemma SchemaAgreesIff(s: Spec)
    requires s.account != "" && s.user != ""
    ensures (Accepted(s) <==> SchemaAdmits(s)) <==>
            && s.authenticationType != ""
            && (s.authenticationType in TYPES && CelAdmits(s) ==> !StrayProvider(s) && !SplitOpinion(s))
  {
    AcceptedIff(s);
    TypesDiffer();
  }

  /** A workload identity with the defaults and a secret reference without a name: Go accepts it and
      the API server does not, whatever the key. */
  lemma BlankSecretAccepted(s: Spec, key: string)
    requires s.account != "" && s.user != "" && s.authenticationType == WORKLOAD_IDENTITY
    requires s.credentials == Some(Credentials(Some(SecretKeyReference("", "", key)), None))
    requires s.workloadIdentity == Some(WorkloadIdentity("", ""))
    ensures Accepted(s) && !SchemaAdmits(s)
  {
    assert PROVIDERS[0] == "" && TYPES[2] == WORKLOAD_IDENTITY;
    ConformsWhen(s);
    AcceptedIff(s);
  }

  lemma ConformsWhen(s: Spec)
    requires s.authenticationType == WORKLOAD_IDENTITY && s.workloadIdentity.Some?
    requires s.workloadIdentity.value.provider in PROVIDERS && TokenFileConfined(s.workloadIdentity.value)
    requires PassphraseKey(s) == "" && (SecretRef(s).Some? ==> SecretRef(s).value.name == "")
    ensures Conforms(s)
  {
    TypesDiffer();
  }

  /** Leaving the token path out is always acceptable. */
  lemma DefaultTokenPathAccepted(w: WorkloadIdentity)
    requires w.tokenFilePath == ""
    ensures TokenPath.Rooted(GetTokenFilePath(w)) && TokenPath.SECRETS < TokenPath.Location(GetTokenFilePath(w))
  {
    TokenPath.DefaultConfined();
    TokenPath.ConfinedIff(TokenPath.DEFAULT_TOKEN_PATH);
  }

  // ---------------------------------------------------------------- the allowlists

  /** How an entry admits a namespace, a database, a schema and a reference target. */
  predicate NamespaceEntry(e: string, namespace: string) {
    e == "*" || e == namespace
  }

  predicate DatabaseEntry(e: string, database: string) {
    e == "*" || EqualFold(e, database)
  }

  /** `strings.SplitN(entry, ".", 2)`. */
  function SplitN2(e: string): (parts: seq<string>)
    ensures '.' in e ==> |parts| == 2 && parts[0] + "." + parts[1] == e && '.' !in parts[0]
    ensures '.' !in e ==> parts == [e]
  {
    if e == "" then [""]
    else if e[0] == '.' then assert e == "" + "." + e[1..]; ["", e[1..]]
    else
      var rest := SplitN2(e[1..]);
      assert e == [e[0]] + e[1..];
      if |rest| == 2 then [[e[0]] + rest[0], rest[1]] else [e]
  }

  predicate SchemaEntry(e: string, database: string, schema: string) {
    e == "*" ||
    var parts := SplitN2(e);
    if |parts| == 2 then EqualFold(parts[0], database) && EqualFold(parts[1], schema)
    else EqualFold(e, schema)
  }

  predicate RefEntry(e: string, target: string) {
    e == "*" || (e != "SAME" && e == target)
  }

  /** What the entries of the other three lists admit: "*" everything, any other database entry its own
      name up to case, a namespace entry its own name exactly, and a reference entry likewise
      unless it is the marker "SAME". */
  lemma PlainEntries(e: string, name: string)
    requires e != "*"
    ensures NamespaceEntry(e, name) <==> name == e
    ensures DatabaseEntry(e, name) <==> |name| == |e| && forall i :: 0 <= i < |e| ==> UpperChar(name[i]) == UpperChar(e[i])
    ensures RefEntry(e, name) <==> name == e && name != "SAME"
  {
    SameUpper(e, name);
  }

  lemma {:induction false} SameUpper(a: string, b: string)
    ensures Upper(a) == Upper(b) <==> |a| == |b| && forall i :: 0 <= i < |a| ==> UpperChar(b[i]) == UpperChar(a[i])
  {
    UpperAt(a);
    UpperAt(b);
  }

  lemma {:induction false} UpperAt(s: string)
    ensures |Upper(s)| == |s| && forall i :: 0 <= i < |s| ==> Upper(s)[i] == UpperChar(s[i])
  {
  }

  lemma StarAdmitsAll(name: string, db: string)
    ensures NamespaceEntry("*", name) && DatabaseEntry("*", name) && SchemaEntry("*", db, name) && RefEntry("*", name)
  {
  }

  /** The answer for a database does not depend on case. */
  lemma DatabaseCaseInsensitive(entries: seq<string>, db: string, db': string)
    requires EqualFold(db, db')
    ensures Admits(entries, e => DatabaseEntry(e, db)) <==> Admits(entries, e => DatabaseEntry(e, db'))
  {
    forall e: string ensures DatabaseEntry(e, db) <==> DatabaseEntry(e, db') {
    }
  }

  ghost predicate Admits(entries: seq<string>, admits: string -> bool) {
    exists e :: e in entries && admits(e)
  }

  method IsNamespaceAllowed(allowed: seq<string>, hasSelector: bool, namespace: string) returns (ok: bool)
    ensures ok <==> if allowed == [] then !hasSelector else Admits(allowed, e => NamespaceEntry(e, namespace))
  {
    if |allowed| == 0 {
      return !hasSelector;
    }
    for i := 0 to |allowed|
      invariant forall k :: 0 <= k < i ==> !NamespaceEntry(allowed[k], namespace)
    {
      if allowed[i] == "*" || allowed[i] == namespace {
        assert allowed[i] in allowed && NamespaceEntry(allowed[i], namespace);
        return true;
      }
    }
    return false;
  }

  method IsDatabaseAllowed(allowed: seq<string>, database: string) returns (ok: bool)
    ensures ok <==> allowed == [] || Admits(allowed, e => DatabaseEntry(e, database))
  {
    if |allowed| == 0 {
      return true;
    }
    for i := 0 to |allowed|
      invariant forall k :: 0 <= k < i ==> !DatabaseEntry(allowed[k], database)
    {
      if allowed[i] == "*" || EqualFold(allowed[i], database) {
        assert allowed[i] in allowed && DatabaseEntry(allowed[i], database);
        return true;
      }
    }
    return false;
  }

  method IsSchemaAllowed(allowed: seq<string>, database: string, schemaName: string) returns (ok: bool)
    ensures ok <==> allowed == [] || Admits(allowed, e => SchemaEntry(e, database, schemaName))
  {
    if |allowed| == 0 {
      return true;
    }
    for i := 0 to |allowed|
      invariant forall k :: 0 <= k < i ==> !SchemaEntry(allowed[k], database, schemaName)
    {
      var entry := allowed[i];
      assert entry in allowed;
      if entry == "*" {
        assert SchemaEntry(entry, database, schemaName);
        return true;
      }
      var parts := SplitN2(entry);
      if |parts| == 2 {
        if EqualFold(parts[0], database) && EqualFold(parts[1], schemaName) {
          assert SchemaEntry(entry, database, schemaName);
          return true;
        }
      } else {
        if EqualFold(entry, schemaName) {
          assert SchemaEntry(entry, database, schemaName);
          return true;
        }
      }
    }
    return false;
  }

  method IsRefNamespaceAllowed(allowed: seq<string>, source: string, target: string) returns (ok: bool)
    ensures ok <==> target == "" || target == source || allowed == [] || Admits(allowed, e => RefEntry(e, target))
  {
    if target == "" || target == source {
      return true;
    }
    if |allowed| == 0 {
      return true;
    }
    var i := 0;
    while i < |allowed|
      invariant 0 <= i <= |allowed|
      invariant forall k :: 0 <= k < i ==> !RefEntry(allowed[k], target)
    {
      var ns := allowed[i];
      assert ns in allowed;
      i := i + 1;
      if ns == "*" {
        assert RefEntry(ns, target);
        return true;
      }
      if ns == "SAME" {
        continue;
      }
      if ns == target {
        assert RefEntry(ns, target);
        return true;
      }
    }
    return false;
  }

  // ---------------------------------------------------------------- what the searches depend on

  /** All four searches depend on the set of entries only, and adding an entry to a list never
      revokes an answer; only the step from the empty list can. */
  lemma AdmitsMonotone(a: seq<string>, b: seq<string>, admits: string -> bool)
    requires forall e :: e in a ==> e in b
    ensures Admits(a, admits) ==> Admits(b, admits)
  {
  }

  lemma AdmitsSetOnly(a: seq<string>, b: seq<string>, admits: string -> bool)
    requires forall e :: e in a <==> e in b
    ensures Admits(a, admits) <==> Admits(b, admits)
    ensures a == [] <==> b == []
  {
    if a != [] { assert a[0] in b; }
    if b != [] { assert b[0] in a; }
  }

  function WithoutSame(entries: seq<string>): (r: seq<string>)
    ensures forall e :: e in r <==> e in entries && e != "SAME"
  {
    if entries == [] then []
    else (if entries[0] == "SAME" then [] else [entries[0]]) + WithoutSame(entries[1..])
  }

  /** "SAME" entries only keep the list from being empty: in a list with any other entry they
      can be deleted, and a list of nothing else allows exactly the same namespace. */
  lemma SameIsInert(entries: seq<string>, target: string)
    ensures Admits(entries, e => RefEntry(e, target)) <==> Admits(WithoutSame(entries), e => RefEntry(e, target))
    ensures WithoutSame(entries) == [] ==> !Admits(entries, e => RefEntry(e, target))
  {
  }

  // ---------------------------------------------------------------- schema patterns

  /** Splitting undoes the join of a dot-free database and any schema name, dots and all. */
  lemma {:induction false} SplitN2Joined(database: string, schema: string)
    requires '.' !in database
    ensures SplitN2(database + "." + schema) == [database, schema]
  {
    var e := database + "." + schema;
    if database == "" {
      assert e[1..] == schema;
    } else {
      SplitN2Joined(database[1..], schema);
      assert e[1..] == database[1..] + "." + schema;
      assert [database[0]] + database[1..] == database;
    }
  }

  /** A qualified entry admits exactly its own database and schema, up to case. */
  lemma QualifiedEntry(database: string, schema: string, db: string, sch: string)
    requires '.' !in database
    ensures SchemaEntry(database + "." + schema, db, sch) <==> EqualFold(database, db) && EqualFold(schema, sch)
  {
    SplitN2Joined(database, schema);
    var e := database + "." + schema;
    assert e[|database|] == '.';
  }

  /** A dot-free entry other than "*" admits its schema in every database. */
  lemma BareEntry(e: string, db: string, sch: string)
    requires '.' !in e && e != "*"
    ensures SchemaEntry(e, db, sch) <==> EqualFold(e, sch)
  {
  }

  /** The answer does not depend on the case of either argument. */
  lemma SchemaCaseInsensitive(entries: seq<string>, db: string, sch: string, db': string, sch': string)
    requires EqualFold(db, db') && EqualFold(sch, sch')
    ensures Admits(entries, e => SchemaEntry(e, db, sch)) <==> Admits(entries, e => SchemaEntry(e, db', sch'))
  {
  }
}
