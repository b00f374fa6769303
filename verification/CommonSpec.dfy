/** The fields every managed resource shares (api/v1alpha1/common_types.go, validation.go). */
module CommonSpec {
  import opened Strings

  datatype Common = Common(deletionPolicy: string, providerName: string, useRole: Option<string>)

  datatype CommonProblem = ProviderRequired | UseRoleEmpty | DeletionPolicyUnknown

  /** `validateEnum`: an absent or empty value passes. */
  method ValidateEnum(val: Option<string>, valid: seq<string>) returns (ok: bool)
    ensures ok <==> val == None || val.value == "" || val.value in valid
  {
    if val.None? || val.value == "" {
      return true;
    }
    for i := 0 to |valid|
      invariant val.value !in valid[..i]
    {
      if val.value == valid[i] {
        return true;
      }
    }
    ok := false;
  }

  predicate CommonWrong(s: Common, p: CommonProblem) {
    match p
    case ProviderRequired => s.providerName == ""
    case UseRoleEmpty => s.useRole == Some("")
    case DeletionPolicyUnknown => s.deletionPolicy !in ["", "Delete", "Orphan"]
  }

  ghost predicate CommonAcceptable(s: Common) {
    forall p :: !CommonWrong(s, p)
  }

  /** `CommonSpec.Validate` reports exactly the problems there are. */
  method ValidateCommon(s: Common) returns (errs: seq<CommonProblem>)
    ensures forall p :: p in errs <==> CommonWrong(s, p)
    ensures errs == [] <==> CommonAcceptable(s)
  {
    errs := [];
    if s.providerName == "" {
      errs := errs + [ProviderRequired];
    }
    if s.useRole.Some? && s.useRole.value == "" {
      errs := errs + [UseRoleEmpty];
    }
    var ok := ValidateEnum(Some(s.deletionPolicy), ["Delete", "Orphan"]);
    if !ok {
      errs := errs + [DeletionPolicyUnknown];
    }
    assert errs != [] ==> errs[0] in errs;
  }
}
