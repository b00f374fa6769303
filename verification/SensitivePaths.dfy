/** The guard on exported status fields (api/v1alpha1/sensitive_paths.go) and the FieldExport
    resource that feeds it (api/v1alpha1/fieldexport_types.go). */
module SensitivePaths {
  import opened Strings
  import opened Lifecycle

  const STATUS := ".status."

  /** `IsSensitiveStatusPath`, over any table. */
  method IsSensitiveStatusPath(table: map<string, seq<string>>, kind: string, path: string) returns (sensitive: bool)
    ensures sensitive <==> Sensitive(table, kind, path)
  {
    // strings.TrimPrefix
    var stripped := if STATUS <= path then path[|STATUS|..] else path;
    if stripped == path {
      return false;
    }
    assert STATUS <= path;
    if kind !in table {
      return false;
    }
    var prefixes := table[kind];
    for i := 0 to |prefixes|
      invariant forall k :: 0 <= k < i ==> !(Fields(prefixes[k]) <= Fields(stripped))
    {
      PrefixIsFieldPrefix(prefixes[i], stripped);
      if stripped == prefixes[i] || (prefixes[i] + ".") <= stripped {
        return true;
      }
    }
    return false;
  }

  /** The field names of a dotted path. */
  function Fields(path: string): (r: seq<string>) {
    Split(path, '.')
  }

  /** What is guarded, in terms of fields: a status path at or below a registered one. */
  predicate Sensitive(table: map<string, seq<string>>, kind: string, path: string) {
    && STATUS <= path && kind in table
    && exists i :: 0 <= i < |table[kind]| && Fields(table[kind][i]) <= Fields(path[|STATUS|..])
  }

  /** The test on characters is the test on fields: equal, or a prefix followed by a dot,
      exactly when the fields of the one begin the fields of the other. */
  lemma PrefixIsFieldPrefix(prefix: string, s: string)
    ensures (s == prefix || (prefix + ".") <= s) <==> Fields(prefix) <= Fields(s)
  {
    if (prefix + ".") <= s {
      var rest := s[|prefix| + 1..];
      assert s == prefix + "." + rest;
      SplitConcat(prefix, '.', rest);
    }
    if Fields(prefix) <= Fields(s) {
      var p, f := Fields(prefix), Fields(s);
      JoinSplit(prefix, '.');
      JoinSplit(s, '.');
      if p == f {
      } else {
        var tail := f[|p|..];
        assert f == p + tail;
        JoinConcat(p, tail, ".");
        assert s == prefix + "." + Join(tail, ".");
      }
    }
  }

  /** Closed under descendants: every field below a guarded one is guarded. */
  lemma DescendantsSensitive(table: map<string, seq<string>>, kind: string, path: string, below: string)
    requires Sensitive(table, kind, path)
    ensures Sensitive(table, kind, path + "." + below)
  {
    var i :| 0 <= i < |table[kind]| && Fields(table[kind][i]) <= Fields(path[|STATUS|..]);
    var s := path[|STATUS|..];
    SplitConcat(s, '.', below);
    assert (path + "." + below)[|STATUS|..] == s + "." + below;
    assert Fields(table[kind][i]) <= Fields(s + "." + below);
  }

  /** A sibling that merely starts with the same letters is not: appending to the last field of
      a registered path leaves it, unless another registered path covers the result. */
  lemma SiblingNotCovered(prefix: string, more: string)
    requires more != "" && '.' !in more
    ensures !(Fields(prefix) <= Fields(prefix + more))
  {
    PrefixIsFieldPrefix(prefix, prefix + more);
    assert (prefix + more)[|prefix|] == more[0] && (prefix + ".")[|prefix|] == '.';
  }

  /** The entry "*" is never looked up for another kind, although it is documented to stand for all
      kinds that are not listed. */
  lemma WildcardIgnored(table: map<string, seq<string>>, kind: string, path: string)
    requires kind != "*"
    ensures Sensitive(table, kind, path) <==> Sensitive(table - {"*"}, kind, path)
  {
    var rest := table - {"*"};
    assert kind in table <==> kind in rest;
    if kind in table {
      assert rest[kind] == table[kind];
    }
  }

  // ---------------------------------------------------------------- what an export carries

  /** A status: objects down to values of any other kind. */
  datatype Value = Plain(text: string) | Tree(fields: map<string, Value>)

  /** `unstructured.NestedFieldNoCopy`; an absent field and a path through a non-object give nothing. */
  function Get(v: Value, names: seq<string>): (r: Option<Value>)
    decreases names
  {
    if names == [] then Some(v)
    else if v.Tree? && names[0] in v.fields then Get(v.fields[names[0]], names[1..])
    else None
  }

  /** The status with another value at an existing field. */
  function Put(v: Value, names: seq<string>, x: Value): (r: Value)
    requires Get(v, names).Some?
    decreases names
  {
    if names == [] then x else v.(fields := v.fields[names[0] := Put(v.fields[names[0]], names[1..], x)])
  }

  lemma {:induction false} GetPut(v: Value, e: seq<string>, x: Value, p: seq<string>)
    requires Get(v, e).Some?
    ensures e <= p ==> Get(Put(v, e, x), p) == Get(x, p[|e|..])
    ensures p <= e ==> Get(v, p).Some? && Get(Get(v, p).value, e[|p|..]) == Get(v, e)
                       && Get(Put(v, e, x), p) == Some(Put(Get(v, p).value, e[|p|..], x))
    ensures !(e <= p) && !(p <= e) ==> Get(Put(v, e, x), p) == Get(v, p)
    decreases e
  {
    if e == [] {
      assert p[0..] == p;
    } else if p != [] && p[0] == e[0] {
      GetPut(v.fields[e[0]], e[1..], x, p[1..]);
      assert e <= p <==> e[1..] <= p[1..];
      assert p <= e <==> p[1..] <= e[1..];
      assert e <= p ==> p[|e|..] == p[1..][|e[1..]|..];
      assert p <= e ==> e[|p|..] == e[1..][|p[1..]|..];
    } else if p == [] {
      assert e[0..] == e;
    }
  }

  /** A status that has `x` at the given field and nothing else. */
  function Only(names: seq<string>, x: Value): (v: Value)
    ensures Get(v, names) == Some(x)
    decreases names
  {
    if names == [] then x else Tree(map[names[0] := Only(names[1..], x)])
  }

  function Another(v: Value): (r: Value)
    ensures r != v
  {
    if v.Tree? then Plain("") else Tree(map[])
  }

  /** What is exported under `p` depends on the value of the field `e`. */
  ghost predicate Depends(v: Value, e: seq<string>, p: seq<string>)
    requires Get(v, e).Some?
  {
    exists x :: Get(Put(v, e, x), p) != Get(v, p)
  }

  /** An export carries a field if and only if one of the two paths leads to the other: at or below
      the field it is a part of it, above it the whole object is written out with the field in it. */
  lemma DependsIff(v: Value, e: seq<string>, p: seq<string>)
    requires Get(v, e).Some?
    ensures Depends(v, e, p) <==> e <= p || p <= e
  {
    forall x ensures !(e <= p) && !(p <= e) ==> Get(Put(v, e, x), p) == Get(v, p) {
      GetPut(v, e, x, p);
    }
    if e <= p {
      var x := Only(p[|e|..], if Get(v, p).Some? then Another(Get(v, p).value) else Plain(""));
      GetPut(v, e, x, p);
      assert Get(Put(v, e, x), p) != Get(v, p);
    } else if p <= e {
      var x := Another(Get(v, e).value);
      GetPut(v, e, x, p);
      var at := Get(v, p).value;
      GetPut(at, e[|p|..], x, e[|p|..]);
      assert e[|p|..][|e[|p|..]|..] == [];
      assert Get(Put(v, e, x), p) != Get(v, p);
    }
  }

  predicate Related(e: seq<string>, p: seq<string>) {
    e <= p || p <= e
  }

  // ---------------------------------------------------------------- FieldExport

  datatype FieldExport = FieldExport(
    kind: string, name: string, path: string, toKind: string, toName: string, toKey: string)

  const SUPPORTED_KINDS: seq<string> := [
    "Alert", "AuthenticationPolicy", "Database", "Schema", "Warehouse", "User", "AccountRole", "DatabaseRole",
    "GrantPrivilegesToAccountRole", "GrantPrivilegesToDatabaseRole", "GrantPrivilegesToShare",
    "AccountRoleAssignment", "DatabaseRoleAssignment", "TagAssociation", "NetworkPolicyAttachment",
    "PasswordPolicyAttachment", "MaskingPolicyApplication", "TableConstraint", "Table", "View",
    "ExternalStage", "InternalStage", "Task", "StreamOnTable", "StreamOnView", "StreamOnExternalTable",
    "StreamOnDirectoryTable", "StreamOnDynamicTable", "Tag", "NetworkPolicy", "ResourceMonitor",
    "MaskingPolicy", "RowAccessPolicy", "GrantOwnership", "StorageIntegrationAWS", "StorageIntegrationGCS",
    "StorageIntegrationAzure", "EmailNotificationIntegration", "QueueNotificationIntegration",
    "WebhookNotificationIntegration", "FileFormat", "Pipe", "DynamicTable", "PasswordPolicy", "NetworkRule",
    "Sequence", "ExternalTable", "MaterializedView", "ProcedureSQL", "ProcedureJavascript", "ProcedurePython",
    "ProcedureJava", "ProcedureScala", "FunctionSQL", "FunctionJavascript", "FunctionPython", "FunctionJava",
    "FunctionScala", "SecretWithClientCredentials", "SecretWithAuthorizationCodeGrant",
    "SecretWithBasicAuthentication", "SecretWithGenericString",
    "APIAuthenticationIntegrationWithClientCredentials",
    "APIAuthenticationIntegrationWithAuthorizationCodeGrant", "APIAuthenticationIntegrationWithJWTBearer",
    "SAML2Integration", "ExternalOAuthIntegration", "SCIMIntegration", "APIIntegration", "SecondaryDatabase",
    "SharedDatabase", "FailoverGroup", "SQLStatement", "Share", "ExternalFunction", "ComputePool", "Service",
    "ImageRepository", "ExternalVolume", "CortexSearchService", "GitRepository", "Streamlit",
    "OAuthIntegrationForCustomClients", "OAuthIntegrationForPartnerApplications", "PrimaryConnection",
    "SecondaryConnection"]

  predicate AdmitFieldExport(f: FieldExport) {
    && STATUS <= f.path && '[' !in f.path && f.kind in SUPPORTED_KINDS
    && f.toKind in ["ConfigMap", "Secret"]
    && f.kind != "" && f.name != "" && f.path != "" && f.toName != "" && f.toKey != ""
  }

  /** Only the path may change. */
  predicate UpdateFieldExport(f: FieldExport, g: FieldExport) {
    && AdmitFieldExport(g)
    && g.kind == f.kind && g.name == f.name && g.toKind == f.toKind && g.toName == f.toName && g.toKey == f.toKey
  }

  /** Over every run of a FieldExport, source and target never change, and the path always has
      the form the guard looks at: whether it is guarded depends on its fields alone. */
  lemma FieldExportFixed(table: map<string, seq<string>>, run: seq<FieldExport>, i: nat)
    requires IsRun(run, AdmitFieldExport, UpdateFieldExport) && i < |run|
    ensures run[i] == run[0].(path := run[i].path) && STATUS <= run[i].path
    ensures Sensitive(table, run[i].kind, run[i].path) <==>
            run[0].kind in table &&
            exists k :: 0 <= k < |table[run[0].kind]| && Fields(table[run[0].kind][k]) <= Fields(run[i].path[|STATUS|..])
  {
    var f0 := run[0];
    AlongRun(run, AdmitFieldExport, UpdateFieldExport, (f: FieldExport) => STATUS <= f.path, i);
    assert IsRun(run, (f: FieldExport) => f == f0, UpdateFieldExport);
    AlongRun(run, (f: FieldExport) => f == f0, UpdateFieldExport,
             (f: FieldExport) => f == f0.(path := f.path), i);
  }

  /** Any admissible path can be reached in one update: the guard must be evaluated each time. */
  lemma AnyPathReachable(f: FieldExport, path: string)
    requires AdmitFieldExport(f) && STATUS <= path && '[' !in path
    ensures IsRun([f, f.(path := path)], AdmitFieldExport, UpdateFieldExport)
  {
  }

  // ---------------------------------------------------------------- what an export writes

  function Entries(table: map<string, seq<string>>, kind: string): (r: seq<string>) {
    if kind in table then table[kind] else []
  }

  /** The controller refuses the export: a registered path and a ConfigMap. */
  predicate Refused(table: map<string, seq<string>>, f: FieldExport) {
    f.toKind == "ConfigMap" && Sensitive(table, f.kind, f.path)
  }

  /** What is written does not depend on any registered field, in any status. */
  ghost predicate Independent(table: map<string, seq<string>>, f: FieldExport)
    requires STATUS <= f.path
  {
    forall i, v | 0 <= i < |Entries(table, f.kind)| && Get(v, Fields(Entries(table, f.kind)[i])).Some? ::
      !Depends(v, Fields(Entries(table, f.kind)[i]), Fields(f.path[|STATUS|..]))
  }

  lemma IndependentIff(table: map<string, seq<string>>, f: FieldExport)
    requires STATUS <= f.path
    ensures Independent(table, f) <==>
            forall i :: 0 <= i < |Entries(table, f.kind)| ==>
              !Related(Fields(Entries(table, f.kind)[i]), Fields(f.path[|STATUS|..]))
  {
    var entries, p := Entries(table, f.kind), Fields(f.path[|STATUS|..]);
    forall i, v | 0 <= i < |entries| && Get(v, Fields(entries[i])).Some?
      ensures Depends(v, Fields(entries[i]), p) <==> Related(Fields(entries[i]), p)
    {
      DependsIff(v, Fields(entries[i]), p);
    }
    forall i | 0 <= i < |entries| ensures Get(Only(Fields(entries[i]), Plain("")), Fields(entries[i])).Some? {
    }
  }

  /** Exactly which exports to a ConfigMap carry nothing registered: of those the guard does not
      refuse, what is written is independent of every registered field, in every status, if and
      only if no registered path extends the exported one. */
  lemma ConfigMapExportIff(table: map<string, seq<string>>, f: FieldExport)
    requires AdmitFieldExport(f) && f.toKind == "ConfigMap" && !Refused(table, f)
    ensures Independent(table, f) <==>
            forall i :: 0 <= i < |Entries(table, f.kind)| ==>
              !(Fields(f.path[|STATUS|..]) <= Fields(Entries(table, f.kind)[i]))
  {
    IndependentIff(table, f);
    var entries, p := Entries(table, f.kind), Fields(f.path[|STATUS|..]);
    forall i | 0 <= i < |entries| ensures Related(Fields(entries[i]), p) <==> p <= Fields(entries[i]) {
      assert !(Fields(entries[i]) <= p);
    }
  }

  /** Such is the object that holds a registered field, unless it is registered itself or lies below
      something that is: it is written out whole. */
  lemma ParentPasses(table: map<string, seq<string>>, f: FieldExport, parent: string, field: string)
    requires f.path == STATUS + parent && parent + "." + field in Entries(table, f.kind)
    requires forall i :: 0 <= i < |Entries(table, f.kind)| ==> !(Fields(Entries(table, f.kind)[i]) <= Fields(parent))
    ensures !Refused(table, f) && !Independent(table, f)
  {
    var entries := Entries(table, f.kind);
    assert f.path[|STATUS|..] == parent;
    var i :| 0 <= i < |entries| && entries[i] == parent + "." + field;
    SplitConcat(parent, '.', field);
    assert Related(Fields(entries[i]), Fields(parent));
    IndependentIff(table, f);
  }

  /** At the top of the status nothing can lie above. */
  lemma TopPasses(table: map<string, seq<string>>, f: FieldExport, parent: string, field: string)
    requires f.path == STATUS + parent && '.' !in parent
    requires f.kind in table && parent !in table[f.kind] && parent + "." + field in table[f.kind]
    ensures !Refused(table, f) && !Independent(table, f)
  {
    var entries := Entries(table, f.kind);
    forall i | 0 <= i < |entries| ensures !(Fields(entries[i]) <= Fields(parent)) {
      PrefixIsFieldPrefix(entries[i], parent);
      assert (entries[i] + ".")[|entries[i]|] == '.';
    }
    ParentPasses(table, f, parent, field);
  }

  /** The registered fields of a User. */
  const USER: seq<string> := [
    "describeOutput.rsaPublicKeyFp", "describeOutput.rsaPublicKey2Fp", "describeOutput.networkPolicy",
    "showOutput.email", "showOutput.loginName", "lastAppliedPasswordHash", "lastAppliedRSAPublicKeyHash",
    "lastAppliedRSAPublicKey2Hash"]

  lemma UserEntries()
    ensures "showOutput" !in USER && "showOutput" + "." + "email" in USER && '.' !in "showOutput"
  {
    assert |"showOutput"| == 10;
    assert "showOutput" + "." + "email" == USER[3];
  }

  /** As shipped, the whole SHOW output of a User can be exported, the registered email in it. */
  lemma UserShowOutputPasses(table: map<string, seq<string>>, f: FieldExport)
    requires f.kind in table && table[f.kind] == USER && f.path == STATUS + "showOutput"
    ensures !Refused(table, f) && !Independent(table, f)
  {
    UserEntries();
    TopPasses(table, f, "showOutput", "email");
  }
}
