/** Ownership transfers (api/v1alpha1/grantownership_types.go): validation, the reported name,
    and what an admitted update may change. */
module Ownership {
  import opened Arrows
  import opened CommonSpec
  import opened GrantTarget
  import opened Lifecycle
  import opened Strings

  datatype Spec = Spec(
    common: Common, objectType: string, objectName: string,
    accountRole: Option<string>, accountRoleRef: Option<ObjectReference>,
    databaseRole: Option<string>, databaseRoleRef: Option<ObjectReference>)

  datatype Problem =
    TypeRequired | InvalidCharacter(c: char) | TooLong(bytes: nat) | Blank | NameRequired | RoleCount
    | CommonProblems(problems: seq<CommonProblem>)

  // ---------------------------------------------------------------- validation

  predicate KeywordSafe(c: char) {
    'A' <= c <= 'Z' || 'a' <= c <= 'z' || '0' <= c <= '9' || c == '_' || c == ' '
  }

  /** The safe characters by code point: the letters and digits of ASCII, underscore and blank. */
  lemma SafeCodes(c: char)
    ensures var n := c as int;
            KeywordSafe(c) <==> 65 <= n < 65 + 26 || 97 <= n < 97 + 26 || 48 <= n < 48 + 10 || n == 95 || n == 32
  {
  }

  /** Go's `len` of a string: its UTF-8 bytes. */
  function Bytes(s: string): (n: nat)
    ensures n >= |s|
  {
    if s == "" then 0
    else (if s[0] < '\U{80}' then 1 else if s[0] < '\U{800}' then 2 else if s[0] < '\U{10000}' then 3 else 4)
         + Bytes(s[1..])
  }

  /** One byte for code points of up to 7 bits, two for up to 11, three for up to 16, else four; and
      the bytes of a text are those of its characters. */
  lemma BytesOfChar(c: char)
    ensures var n := c as int;
            Bytes([c]) == if n < 128 then 1 else if n < 2048 then 2 else if n < 65536 then 3 else 4
  {
    assert [c][1..] == "";
  }

  lemma {:induction false} BytesConcat(a: string, b: string)
    ensures Bytes(a + b) == Bytes(a) + Bytes(b)
  {
    if a == "" {
      assert a + b == b;
    } else {
      assert (a + b)[1..] == a[1..] + b;
      BytesConcat(a[1..], b);
    }
  }

  lemma {:induction false} BytesOfKeyword(s: string)
    requires forall i :: 0 <= i < |s| ==> KeywordSafe(s[i])
    ensures Bytes(s) == |s|
  {
    if s != "" {
      assert KeywordSafe(s[0]);
      BytesOfKeyword(s[1..]);
    }
  }

  /** The first character that is not keyword-safe. */
  predicate FirstUnsafe(s: string, i: int) {
    0 <= i < |s| && !KeywordSafe(s[i]) && forall k :: 0 <= k < i ==> KeywordSafe(s[k])
  }

  function Sources(s: Spec): (n: int) {
    One(s.accountRole.Some?) + One(s.accountRoleRef.Some?) + One(s.databaseRole.Some?) + One(s.databaseRoleRef.Some?)
  }

  /** Exactly one of the four ways to name the role. */
  lemma OneSource(s: Spec)
    ensures Sources(s) == 1 <==>
            || (s.accountRole.Some? && s.accountRoleRef.None? && s.databaseRole.None? && s.databaseRoleRef.None?)
            || (s.accountRole.None? && s.accountRoleRef.Some? && s.databaseRole.None? && s.databaseRoleRef.None?)
            || (s.accountRole.None? && s.accountRoleRef.None? && s.databaseRole.Some? && s.databaseRoleRef.None?)
            || (s.accountRole.None? && s.accountRoleRef.None? && s.databaseRole.None? && s.databaseRoleRef.Some?)
  {
  }

  /** What is acceptable: a keyword-like object type of 1 to 64 characters that is not all spaces,
      an object name, and exactly one role. */
  ghost predicate Acceptable(s: Spec) {
    && |s.objectType| <= 64 && (forall i :: 0 <= i < |s.objectType| ==> KeywordSafe(s.objectType[i]))
    && (exists i :: 0 <= i < |s.objectType| && s.objectType[i] != ' ')
    && s.objectName != "" && Sources(s) == 1 && CommonAcceptable(s.common)
  }

  lemma TrimBlank(s: string)
    ensures Trim(s) == "" <==> forall i :: 0 <= i < |s| ==> IsSpace(s[i])
    ensures (forall i :: 0 <= i < |s| ==> KeywordSafe(s[i])) ==>
            (Trim(s) != "" <==> exists i :: 0 <= i < |s| && s[i] != ' ')
  {
    assert forall i :: 0 <= i < |s| && KeywordSafe(s[i]) ==> (IsSpace(s[i]) <==> s[i] == ' ');
  }

  /** The character loop: it stops at the first unsafe character. */
  method FindUnsafe(s: string) returns (found: Option<char>)
    ensures found.Some? ==> exists i :: FirstUnsafe(s, i) && s[i] == found.value
    ensures found.None? <==> forall i :: 0 <= i < |s| ==> KeywordSafe(s[i])
  {
    found := None;
    for i := 0 to |s|
      invariant found.None? && forall k :: 0 <= k < i ==> KeywordSafe(s[k])
    {
      if !KeywordSafe(s[i]) {
        assert FirstUnsafe(s, i);
        found := Some(s[i]);
        break;
      }
    }
  }

  /** Type checks: nothing to report exactly for keyword-like types of 1 to 64 characters. */
  method ValidateType(t: string) returns (errs: seq<Problem>)
    ensures errs == [] <==>
            && |t| <= 64 && (forall i :: 0 <= i < |t| ==> KeywordSafe(t[i]))
            && (exists i :: 0 <= i < |t| && t[i] != ' ')
    ensures forall c :: InvalidCharacter(c) in errs <==> exists i :: FirstUnsafe(t, i) && t[i] == c
    ensures forall e :: e in errs ==> !e.CommonProblems? && e != NameRequired && e != RoleCount
    ensures TypeRequired in errs <==> t == ""
    ensures TooLong(Bytes(t)) in errs <==> Bytes(t) > 64
    ensures forall e :: e in errs && e.TooLong? ==> e.bytes == Bytes(t)
    ensures Blank in errs <==> t != "" && forall i :: 0 <= i < |t| ==> IsSpace(t[i])
  {
    if t == "" {
      return [TypeRequired];
    }
    errs := [];
    var found := FindUnsafe(t);
    if found.Some? {
      errs := errs + [InvalidCharacter(found.value)];
    } else {
      BytesOfKeyword(t);
    }
    if Bytes(t) > 64 {
      errs := errs + [TooLong(Bytes(t))];
    }
    TrimBlank(t);
    if Trim(t) == "" {
      errs := errs + [Blank];
    }
  }

  /** `GrantOwnershipSpec.Validate`. */
  method Validate(s: Spec) returns (errs: seq<Problem>)
    ensures errs == [] <==> Acceptable(s)
    ensures forall c :: InvalidCharacter(c) in errs <==> exists i :: FirstUnsafe(s.objectType, i) && s.objectType[i] == c
    ensures NameRequired in errs <==> s.objectName == ""
    ensures RoleCount in errs <==> Sources(s) != 1
  {
    errs := ValidateType(s.objectType);
    if s.objectName == "" {
      errs := errs + [NameRequired];
    }
    var count := 0;
    if s.accountRole.Some? {
      count := count + 1;
    }
    if s.accountRoleRef.Some? {
      count := count + 1;
    }
    if s.databaseRole.Some? {
      count := count + 1;
    }
    if s.databaseRoleRef.Some? {
      count := count + 1;
    }
    if count != 1 {
      errs := errs + [RoleCount];
    }
    var common := ValidateCommon(s.common);
    if common != [] {
      errs := errs + [CommonProblems(common)];
    }
  }

  // ---------------------------------------------------------------- the reported name

  /** The CRD's enum of object types, one word and several. */
  const SIMPLE_1: seq<string> := [
    "DATABASE", "SCHEMA", "TABLE", "VIEW", "WAREHOUSE", "STAGE", "FUNCTION", "PROCEDURE", "STREAM", "TASK"]
  const SIMPLE_2: seq<string> := [
    "PIPE", "SEQUENCE", "TAG", "USER", "INTEGRATION", "CONNECTION", "ALERT", "SECRET", "MODEL"]

  const COMPOUND_1: seq<string> := [
    "MATERIALIZED VIEW", "FILE FORMAT", "MASKING POLICY", "ROW ACCESS POLICY", "NETWORK POLICY"]
  const COMPOUND_2: seq<string> := [
    "RESOURCE MONITOR", "COMPUTE POOL", "FAILOVER GROUP", "REPLICATION GROUP", "EXTERNAL VOLUME"]
  const COMPOUND_3: seq<string> := [
    "DYNAMIC TABLE", "ICEBERG TABLE", "EVENT TABLE", "EXTERNAL TABLE", "NETWORK RULE", "PASSWORD POLICY"]

  predicate ObjectType(t: string) {
    t in SIMPLE_1 || t in SIMPLE_2 || t in COMPOUND_1 || t in COMPOUND_2 || t in COMPOUND_3
  }

  predicate Admit(s: Spec) {
    && ObjectType(s.objectType) && s.objectName != "" && Sources(s) == 1
    && NonEmpty(s.accountRole) && NonEmpty(s.databaseRole) && RefOk(s.accountRoleRef) && RefOk(s.databaseRoleRef)
  }

  /** The role part of `GetSpecName`. */
  function RoleText(s: Spec): (role: string) {
    var role := OrEmpty(s.accountRole);
    var role := if role == "" && s.accountRoleRef.Some? then ShowRef(s.accountRoleRef.value) else role;
    var role := if role == "" && s.databaseRole.Some? then s.databaseRole.value else role;
    if role == "" && s.databaseRoleRef.Some? then ShowRef(s.databaseRoleRef.value) else role
  }

  const ARROW := " -> "

  function SpecName(s: Spec): (name: string) {
    "OWNERSHIP ON " + s.objectType + " " + s.objectName + ARROW + RoleText(s)
  }

  /** The length and first two letters of what stands before a space of some type. */
  predicate HeadKey(k: int, c: char, d: char) {
    || (k == 12 && c == 'M' && d == 'A') || (k == 4 && c == 'F' && d == 'I') || (k == 7 && c == 'M' && d == 'A')
    || (k == 3 && c == 'R' && d == 'O') || (k == 10 && c == 'R' && d == 'O') || (k == 7 && c == 'N' && d == 'E')
    || (k == 8 && c == 'R' && d == 'E') || (k == 7 && c == 'C' && d == 'O') || (k == 8 && c == 'F' && d == 'A')
    || (k == 11 && c == 'R' && d == 'E') || (k == 8 && c == 'E' && d == 'X') || (k == 7 && c == 'D' && d == 'Y')
    || (k == 7 && c == 'I' && d == 'C') || (k == 5 && c == 'E' && d == 'V') || (k == 8 && c == 'P' && d == 'A')
  }

  /** What the unique decoding of a type needs to know about one character of it: the character is
      keyword-safe, what precedes a space has a head key, and the type itself has none. */
  predicate TypeShape(t: string, i: int) {
    && 2 <= |t| <= 17 && t[0] != ' ' && !HeadKey(|t|, t[0], t[1])
    && (0 <= i < |t| ==> KeywordSafe(t[i]) && (t[i] == ' ' ==> HeadKey(i, t[0], t[1])))
  }

  lemma ShapeSimple1(t: string, i: int)
    requires t in SIMPLE_1
    ensures TypeShape(t, i)
  {
  }

  lemma ShapeSimple2(t: string, i: int)
    requires t in SIMPLE_2
    ensures TypeShape(t, i)
  {
  }

  lemma ShapeCompound1(t: string, i: int)
    requires t in COMPOUND_1
    ensures TypeShape(t, i)
  {
  }

  lemma ShapeCompound2(t: string, i: int)
    requires t in COMPOUND_2
    ensures TypeShape(t, i)
  {
  }

  lemma ShapeCompound3(t: string, i: int)
    requires t in COMPOUND_3
    ensures TypeShape(t, i)
  {
  }

  lemma Shape(t: string, i: int)
    requires ObjectType(t)
    ensures TypeShape(t, i)
  {
    if t in SIMPLE_1 {
      ShapeSimple1(t, i);
    } else if t in SIMPLE_2 {
      ShapeSimple2(t, i);
    } else if t in COMPOUND_1 {
      ShapeCompound1(t, i);
    } else if t in COMPOUND_2 {
      ShapeCompound2(t, i);
    } else {
      ShapeCompound3(t, i);
    }
  }

  /** The part of a type in front of a space is not a type itself. */
  lemma NoHead(t: string, k: nat)
    requires ObjectType(t) && k < |t| && t[k] == ' '
    ensures !ObjectType(t[..k])
  {
    Shape(t, k);
    if ObjectType(t[..k]) {
      Shape(t[..k], 0);
    }
  }

  /** Where the type ends is unambiguous. */
  lemma TypeDetermined(t: string, x: string, u: string, y: string)
    requires ObjectType(t) && ObjectType(u) && t + " " + x == u + " " + y
    ensures t == u && x == y
  {
    var text := t + " " + x;
    if |t| < |u| {
      assert u[|t|] == text[|t|] == ' ' && u[..|t|] == text[..|t|] == t;
      NoHead(u, |t|);
    } else if |u| < |t| {
      assert t[|u|] == text[|u|] == ' ' && t[..|u|] == text[..|u|] == u;
      NoHead(t, |u|);
    }
    assert t == text[..|t|] == u;
    assert x == text[|t| + 1..] == y;
  }

  /** The object name can itself be read as a name, the arrow and the start of a role. */
  ghost predicate HidesArrow(name: string) {
    HiddenInFirst(ARROW, name)
  }

  lemma NameText(s: Spec)
    ensures SpecName(s) == "OWNERSHIP ON " + (s.objectType + " " + (s.objectName + ARROW + RoleText(s)))
  {
  }

  /** For admitted transfers whose object names hide no arrow, the reported name identifies the
      object type, the object and the printed role, and nothing more. */
  lemma NameDetermines(s: Spec, t: Spec)
    requires Admit(s) && Admit(t) && !HidesArrow(s.objectName) && !HidesArrow(t.objectName)
    ensures SpecName(s) == SpecName(t) <==>
            s.objectType == t.objectType && s.objectName == t.objectName && RoleText(s) == RoleText(t)
  {
    NameText(s);
    NameText(t);
    if SpecName(s) == SpecName(t) {
      var x, y := s.objectName + ARROW + RoleText(s), t.objectName + ARROW + RoleText(t);
      assert s.objectType + " " + x == SpecName(s)[13..] == SpecName(t)[13..] == t.objectType + " " + y;
      TypeDetermined(s.objectType, x, t.objectType, y);
      FirstDetermined(ARROW, s.objectName, RoleText(s), t.objectName, RoleText(t));
    }
  }

  lemma Regroup(name: string, x: string, w: string, r: string)
    requires name + " " == x + ARROW + w
    ensures name + ARROW + r == x + ARROW + (w + ("-> " + r))
  {
    assert name + ARROW + r == (name + " ") + ("-> " + r);
    assert (x + ARROW + w) + ("-> " + r) == x + ARROW + (w + ("-> " + r));
  }

  /** The CRD's limits on the length of names. */
  predicate WithinLimits(s: Spec) {
    && |s.objectName| <= 1024
    && (s.accountRole.Some? ==> |s.accountRole.value| <= 255) && (s.databaseRole.Some? ==> |s.databaseRole.value| <= 255)
    && (s.accountRoleRef.Some? ==> |s.accountRoleRef.value.name| <= 255)
    && (s.databaseRoleRef.Some? ==> |s.databaseRoleRef.value.name| <= 255)
  }

  /** The condition is needed: a transfer of an object whose name hides an arrow always has the
      name of another transfer, of an object with a shorter name to a role with a longer one; the
      other transfer is within the limits on lengths as long as its role is. */
  lemma HiddenArrowCollides(s: Spec, i: nat) returns (t: Spec)
    requires Admit(s) && HiddenInFirstAt(ARROW, s.objectName, i)
    ensures Admit(t) && t.objectType == s.objectType && t.objectName != s.objectName && SpecName(t) == SpecName(s)
    ensures |t.objectName| == i && |RoleText(t)| == |s.objectName| + |RoleText(s)| - i
    ensures WithinLimits(s) ==> (WithinLimits(t) <==> |s.objectName| + |RoleText(s)| - i <= 255)
  {
    var padded := s.objectName + " ";
    var x, w := padded[..i], padded[i + 4..];
    assert padded == x + ARROW + w;
    t := Spec(s.common, s.objectType, x, Some(w + ("-> " + RoleText(s))), None, None, None);
    Regroup(s.objectName, x, w, RoleText(s));
    NameText(s);
    NameText(t);
  }

  /** Every enum type passes the Go validation, which is laxer than the enum. */
  lemma AdmittedAcceptable(s: Spec)
    requires Admit(s) && CommonAcceptable(s.common)
    ensures Acceptable(s)
  {
    Shape(s.objectType, 0);
    forall i | 0 <= i < |s.objectType| ensures KeywordSafe(s.objectType[i]) {
      Shape(s.objectType, i);
    }
  }

  // ---------------------------------------------------------------- over a whole life

  predicate Update(s: Spec, t: Spec) {
    && Admit(t) && t.objectType == s.objectType && t.objectName == s.objectName
    && Immutable(s.accountRole, t.accountRole) && Immutable(s.accountRoleRef, t.accountRoleRef)
    && Immutable(s.databaseRole, t.databaseRole) && Immutable(s.databaseRoleRef, t.databaseRoleRef)
    && Immutable(s.common.useRole, t.common.useRole)
  }

  /** Over every run the transfer, its acting role and its reported name never change, and the
      name always ends in a real role. */
  lemma OwnershipFixed(run: seq<Spec>, i: nat)
    requires IsRun(run, Admit, Update) && i < |run|
    ensures run[i] == run[0].(common := run[i].common) && run[i].common.useRole == run[0].common.useRole
    ensures SpecName(run[i]) == SpecName(run[0]) && RoleText(run[i]) != ""
  {
    AlongRun(run, Admit, Update, Admit, i);
    FixedStep(run, i);
  }

  lemma {:induction false} FixedStep(run: seq<Spec>, i: nat)
    requires IsRun(run, Admit, Update) && i < |run|
    ensures run[i] == run[0].(common := run[i].common) && run[i].common.useRole == run[0].common.useRole
  {
    if i > 0 {
      FixedStep(run, i - 1);
      assert Update(run[i - 1], run[i - 1 + 1]);
    }
  }
}
