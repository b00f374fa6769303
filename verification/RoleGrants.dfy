/** The role assignment and privilege grant resources: their admission rules, the names they
    report, and what stays fixed over their whole life. */
module RoleGrants {
  import opened Arrows
  import opened GrantDecode
  import opened GrantTarget
  import opened Lifecycle
  import opened Privileges
  import opened Strings

  predicate ExactlyOne(a: bool, b: bool) {
    (a && !b) || (!a && b)
  }

  /** The shared shape of `GetSpecName`: the raw name, or the reference when there is none. */
  function RoleText(name: Option<string>, ref: Option<ObjectReference>): (role: string) {
    var role := OrEmpty(name);
    if role == "" && ref.Some? then ShowRef(ref.value) else role
  }

  const UNSET := "<unset>"

  // ---------------------------------------------------------------- role assignments

  /** AccountRoleAssignmentSpec and DatabaseRoleAssignmentSpec have the same fields under
      different names: a role, a parent role, and a user or a parent database role. */
  datatype Assignment = Assignment(
    role: Option<string>, roleRef: Option<ObjectReference>,
    toRole: Option<string>, toRoleRef: Option<ObjectReference>,
    toOther: Option<string>, toOtherRef: Option<ObjectReference>,
    useRole: Option<string>)

  datatype AssignmentKind = OfAccountRole | OfDatabaseRole

  predicate AdmitAssignment(s: Assignment) {
    && ExactlyOne(s.role.Some?, s.roleRef.Some?)
    && One(s.toRole.Some?) + One(s.toRoleRef.Some?) + One(s.toOther.Some?) + One(s.toOtherRef.Some?) == 1
    && NonEmpty(s.role) && NonEmpty(s.toRole) && NonEmpty(s.toOther) && NonEmpty(s.useRole)
    && RefOk(s.roleRef) && RefOk(s.toRoleRef) && RefOk(s.toOtherRef)
  }

  predicate UpdateAssignment(s: Assignment, t: Assignment) {
    && AdmitAssignment(t)
    && Immutable(s.role, t.role) && Immutable(s.roleRef, t.roleRef)
    && Immutable(s.toRole, t.toRole) && Immutable(s.toRoleRef, t.toRoleRef)
    && Immutable(s.toOther, t.toOther) && Immutable(s.toOtherRef, t.toOtherRef)
    && Immutable(s.useRole, t.useRole)
  }

  function OtherWord(k: AssignmentKind): (s: string) {
    if k.OfAccountRole? then "USER " else "DATABASE ROLE "
  }

  /** `resolvedTarget`. */
  function ResolvedTarget(k: AssignmentKind, s: Assignment): (target: string) {
    if s.toRole.Some? then "ROLE " + s.toRole.value
    else if s.toRoleRef.Some? then "ROLE " + ShowRef(s.toRoleRef.value)
    else if s.toOther.Some? then OtherWord(k) + s.toOther.value
    else if s.toOtherRef.Some? then OtherWord(k) + ShowRef(s.toOtherRef.value)
    else UNSET
  }

  function AssignmentName(k: AssignmentKind, s: Assignment): (name: string) {
    (if k.OfAccountRole? then "ROLE " else "DATABASE ROLE ") + RoleText(s.role, s.roleRef)
    + " -> " + ResolvedTarget(k, s)
  }

  /** The source and target of an assignment, independent of how they are printed. */
  datatype Endpoint = ByName(name: string) | ByReference(ref: ObjectReference)

  function EndpointOf(name: Option<string>, ref: Option<ObjectReference>): (e: Option<Endpoint>) {
    if name.Some? then Some(ByName(name.value)) else if ref.Some? then Some(ByReference(ref.value)) else None
  }

  /** Over every run, an assignment has one source and one target, they never change, and the
      reported name is made of exactly them. */
  lemma AssignmentFixed(k: AssignmentKind, run: seq<Assignment>, i: nat)
    requires IsRun(run, AdmitAssignment, UpdateAssignment) && i < |run|
    ensures run[i] == run[0]
    ensures AssignmentName(k, run[i]) == AssignmentName(k, run[0])
    ensures ResolvedTarget(k, run[i]) != UNSET && RoleText(run[i].role, run[i].roleRef) != ""
    ensures EndpointOf(run[i].role, run[i].roleRef).Some?
    ensures EndpointOf(run[i].toRole, run[i].toRoleRef).Some? != EndpointOf(run[i].toOther, run[i].toOtherRef).Some?
  {
    var s0 := run[0];
    AlongRun(run, AdmitAssignment, UpdateAssignment, AdmitAssignment, i);
    assert IsRun(run, (s: Assignment) => s == s0, UpdateAssignment);
    AlongRun(run, (s: Assignment) => s == s0, UpdateAssignment, (s: Assignment) => s == s0, i);
    TargetSet(k, run[i]);
  }

  lemma TargetSet(k: AssignmentKind, s: Assignment)
    requires AdmitAssignment(s)
    ensures ResolvedTarget(k, s) != UNSET && RoleText(s.role, s.roleRef) != ""
  {
    var t := ResolvedTarget(k, s);
    assert |t| > 0 && t[0] != '<';
    if s.role.None? {
      assert |ShowRef(s.roleRef.value)| > 0;
    }
  }

  const ARROW := " -> "

  /** The text after the arrow tells a role from the other kind of target. */
  lemma TargetDetermined(k: AssignmentKind, s: Assignment, t: Assignment)
    requires AdmitAssignment(s) && AdmitAssignment(t)
    ensures ResolvedTarget(k, s) == ResolvedTarget(k, t) <==>
            && RoleText(s.toRole, s.toRoleRef) == RoleText(t.toRole, t.toRoleRef)
            && RoleText(s.toOther, s.toOtherRef) == RoleText(t.toOther, t.toOtherRef)
  {
    TargetText(k, s);
    TargetText(k, t);
    var x, y := RoleText(s.toRole, s.toRoleRef), RoleText(t.toRole, t.toRoleRef);
    var u, w := RoleText(s.toOther, s.toOtherRef), RoleText(t.toOther, t.toOtherRef);
    assert x == ("ROLE " + x)[5..] && y == ("ROLE " + y)[5..];
    assert u == (OtherWord(k) + u)[|OtherWord(k)|..] && w == (OtherWord(k) + w)[|OtherWord(k)|..];
    assert OtherWord(k)[0] != 'R';
  }

  lemma TargetText(k: AssignmentKind, s: Assignment)
    requires AdmitAssignment(s)
    ensures var r, o := RoleText(s.toRole, s.toRoleRef), RoleText(s.toOther, s.toOtherRef);
            && (r == "") != (o == "")
            && ResolvedTarget(k, s) == if r != "" then "ROLE " + r else OtherWord(k) + o
  {
  }

  /** The words of the reported names, for roles and targets given by name: an account role goes to a
      role or a user, a database role to a role or a database role. */
  lemma AssignmentWords(s: Assignment, role: string, target: string)
    requires AdmitAssignment(s) && s.role == Some(role)
    ensures s.toRole == Some(target) ==>
            && AssignmentName(OfAccountRole, s) == "ROLE " + role + " -> ROLE " + target
            && AssignmentName(OfDatabaseRole, s) == "DATABASE ROLE " + role + " -> ROLE " + target
    ensures s.toOther == Some(target) ==>
            && AssignmentName(OfAccountRole, s) == "ROLE " + role + " -> USER " + target
            && AssignmentName(OfDatabaseRole, s) == "DATABASE ROLE " + role + " -> DATABASE ROLE " + target
  {
    assert "ROLE " + role + " -> " + ("ROLE " + target) == "ROLE " + role + " -> ROLE " + target;
    assert "DATABASE ROLE " + role + " -> " + ("ROLE " + target) == "DATABASE ROLE " + role + " -> ROLE " + target;
    assert "ROLE " + role + " -> " + ("USER " + target) == "ROLE " + role + " -> USER " + target;
    assert "DATABASE ROLE " + role + " -> " + ("DATABASE ROLE " + target)
        == "DATABASE ROLE " + role + " -> DATABASE ROLE " + target;
  }

  /** The name of an assignment whose role hides no arrow determines the printed role and the printed
      target, and nothing more. */
  lemma AssignmentNameDetermines(k: AssignmentKind, s: Assignment, t: Assignment)
    requires AdmitAssignment(s) && AdmitAssignment(t)
    requires !HiddenInFirst(ARROW, RoleText(s.role, s.roleRef)) && !HiddenInFirst(ARROW, RoleText(t.role, t.roleRef))
    ensures AssignmentName(k, s) == AssignmentName(k, t) <==>
            && RoleText(s.role, s.roleRef) == RoleText(t.role, t.roleRef)
            && RoleText(s.toRole, s.toRoleRef) == RoleText(t.toRole, t.toRoleRef)
            && RoleText(s.toOther, s.toOtherRef) == RoleText(t.toOther, t.toOtherRef)
  {
    var r, q := RoleText(s.role, s.roleRef), RoleText(t.role, t.roleRef);
    var x, y := ResolvedTarget(k, s), ResolvedTarget(k, t);
    TargetSet(k, s);
    TargetSet(k, t);
    TargetDetermined(k, s, t);
    AssignmentText(k, s);
    AssignmentText(k, t);
    if AssignmentName(k, s) == AssignmentName(k, t) {
      FirstDetermined(ARROW, r, x, q, y);
    }
  }

  /** What follows the word of an assignment's name. */
  function Tail(k: AssignmentKind, s: Assignment): (text: string) {
    RoleText(s.role, s.roleRef) + ARROW + ResolvedTarget(k, s)
  }

  /** The text begins with a target word and names something. */
  predicate TargetStart(k: AssignmentKind, text: string) {
    ("ROLE " <= text && |text| > 5) || (OtherWord(k) <= text && |text| > |OtherWord(k)|)
  }

  /** The text can be read as a role of `i` characters and a target. */
  predicate SplitsAt(k: AssignmentKind, text: string, i: int) {
    0 < i && OccursAt(text, ARROW, i) && TargetStart(k, text[i + |ARROW|..])
  }

  predicate SameParts(s: Assignment, t: Assignment) {
    && RoleText(s.role, s.roleRef) == RoleText(t.role, t.roleRef)
    && RoleText(s.toRole, s.toRoleRef) == RoleText(t.toRole, t.toRoleRef)
    && RoleText(s.toOther, s.toOtherRef) == RoleText(t.toOther, t.toOtherRef)
  }

  lemma TailSplits(k: AssignmentKind, s: Assignment)
    requires AdmitAssignment(s)
    ensures SplitsAt(k, Tail(k, s), |RoleText(s.role, s.roleRef)|)
    ensures Tail(k, s)[|RoleText(s.role, s.roleRef)| + |ARROW|..] == ResolvedTarget(k, s)
  {
    TargetSet(k, s);
    TargetText(k, s);
    ArrowAt(RoleText(s.role, s.roleRef), ARROW, ResolvedTarget(k, s));
    var o, r := RoleText(s.toOther, s.toOtherRef), RoleText(s.toRole, s.toRoleRef);
    assert "ROLE " <= "ROLE " + r && OtherWord(k) <= OtherWord(k) + o;
  }

  /** The assignment that a split reads. */
  function ReadAt(k: AssignmentKind, text: string, i: int): (t: Assignment)
    requires SplitsAt(k, text, i)
  {
    var target := text[i + |ARROW|..];
    if "ROLE " <= target && |target| > 5
    then Assignment(Some(text[..i]), None, Some(target[5..]), None, None, None, None)
    else Assignment(Some(text[..i]), None, None, None, Some(target[|OtherWord(k)|..]), None, None)
  }

  lemma ReadAtTail(k: AssignmentKind, text: string, i: int)
    requires SplitsAt(k, text, i)
    ensures var t := ReadAt(k, text, i);
            AdmitAssignment(t) && Tail(k, t) == text && |RoleText(t.role, t.roleRef)| == i
  {
    var t, target := ReadAt(k, text, i), text[i + |ARROW|..];
    assert text == text[..i] + ARROW + target;
    if "ROLE " <= target && |target| > 5 {
      assert target == "ROLE " + target[5..];
    } else {
      assert target == OtherWord(k) + target[|OtherWord(k)|..];
    }
  }

  /** Exactly when a name is shared: some assignment with another role or target reports the name of
      `s` if and only if the text has a second place where an arrow is followed by a target. */
  lemma AssignmentNameSharedIff(k: AssignmentKind, s: Assignment)
    requires AdmitAssignment(s)
    ensures (exists t :: AdmitAssignment(t) && AssignmentName(k, t) == AssignmentName(k, s) && !SameParts(s, t))
       <==> exists i :: i != |RoleText(s.role, s.roleRef)| && SplitsAt(k, Tail(k, s), i)
  {
    var r := RoleText(s.role, s.roleRef);
    AssignmentText(k, s);
    TailSplits(k, s);
    forall t | AdmitAssignment(t) && AssignmentName(k, t) == AssignmentName(k, s) && !SameParts(s, t)
      ensures |RoleText(t.role, t.roleRef)| != |r| && SplitsAt(k, Tail(k, s), |RoleText(t.role, t.roleRef)|)
    {
      SharedSplits(k, s, t);
    }
    forall i | i != |r| && SplitsAt(k, Tail(k, s), i)
      ensures var t := ReadAt(k, Tail(k, s), i);
              AdmitAssignment(t) && AssignmentName(k, t) == AssignmentName(k, s) && !SameParts(s, t)
    {
      ReadAtTail(k, Tail(k, s), i);
      NameOfTail(k, ReadAt(k, Tail(k, s), i));
      NameOfTail(k, s);
    }
  }

  lemma NameOfTail(k: AssignmentKind, s: Assignment)
    ensures AssignmentName(k, s) == AssignmentWord(k) + Tail(k, s)
  {
  }

  lemma SharedSplits(k: AssignmentKind, s: Assignment, t: Assignment)
    requires AdmitAssignment(s) && AdmitAssignment(t)
    requires AssignmentName(k, t) == AssignmentName(k, s) && !SameParts(s, t)
    ensures |RoleText(t.role, t.roleRef)| != |RoleText(s.role, s.roleRef)|
    ensures SplitsAt(k, Tail(k, s), |RoleText(t.role, t.roleRef)|)
  {
    AssignmentText(k, s);
    AssignmentText(k, t);
    assert Tail(k, t) == Tail(k, s);
    TailSplits(k, t);
    if |RoleText(t.role, t.roleRef)| == |RoleText(s.role, s.roleRef)| {
      SameSplit(ARROW, RoleText(s.role, s.roleRef), ResolvedTarget(k, s), RoleText(t.role, t.roleRef), ResolvedTarget(k, t));
      TargetDetermined(k, s, t);
    }
  }

  function AssignmentWord(k: AssignmentKind): (s: string) {
    if k.OfAccountRole? then "ROLE " else "DATABASE ROLE "
  }

  lemma AssignmentText(k: AssignmentKind, s: Assignment)
    ensures AssignmentWord(k) <= AssignmentName(k, s)
    ensures AssignmentName(k, s)[|AssignmentWord(k)|..] == RoleText(s.role, s.roleRef) + ARROW + ResolvedTarget(k, s)
  {
  }

  // ---------------------------------------------------------------- privilege grants

  /** GrantPrivilegesToAccountRoleSpec and GrantPrivilegesToDatabaseRoleSpec differ only in the
      type of `on`. */
  datatype Grant<T> = Grant(
    privilege: Option<string>, allPrivileges: Option<bool>, on: T,
    role: Option<string>, roleRef: Option<ObjectReference>, withGrantOption: bool, useRole: Option<string>)

  predicate AdmitGrant<T>(s: Grant<T>) {
    && ExactlyOne(s.role.Some?, s.roleRef.Some?)
    && One(s.privilege.Some? && |s.privilege.value| > 0) + One(s.allPrivileges.Some? && s.allPrivileges.value) == 1
    && NonEmpty(s.role) && NonEmpty(s.useRole) && RefOk(s.roleRef)
  }

  predicate KeepGrant<T(==)>(s: Grant<T>, t: Grant<T>) {
    && Immutable(s.privilege, t.privilege) && Immutable(s.allPrivileges, t.allPrivileges)
    && t.on == s.on
    && Immutable(s.role, t.role) && Immutable(s.roleRef, t.roleRef)
    && t.withGrantOption == s.withGrantOption && Immutable(s.useRole, t.useRole)
  }

  /** `ResolvedPrivilege`. */
  function ResolvedPrivilege<T>(s: Grant<T>): (p: string) {
    if s.allPrivileges.Some? && s.allPrivileges.value then "ALL PRIVILEGES" else OrEmpty(s.privilege)
  }

  /** The privilege an admitted grant resolves to: all of them if it says so, else the one it names. */
  lemma PrivilegeResolved<T>(s: Grant<T>)
    requires AdmitGrant(s)
    ensures s.allPrivileges == Some(true) ==> ResolvedPrivilege(s) == "ALL PRIVILEGES"
    ensures s.allPrivileges != Some(true) ==> s.privilege == Some(ResolvedPrivilege(s))
  {
  }

  predicate CreateAccountGrant(s: Grant<GrantOn>) {
    AdmitGrant(s) && Admit(s.on)
  }

  predicate UpdateAccountGrant(s: Grant<GrantOn>, t: Grant<GrantOn>) {
    CreateAccountGrant(t) && KeepGrant(s, t)
  }

  function AccountGrantName(s: Grant<GrantOn>): (name: string) {
    ResolvedPrivilege(s) + " " + Description(s.on) + " -> ROLE " + RoleText(s.role, s.roleRef)
  }

  /** Over every run of an account role grant, name and kind never change, and the privilege,
      role and target they are made of are real: no empty privilege, no empty role, and the
      placeholder target only for a schema object created with an explicit empty name. */
  lemma AccountGrantFixed(run: seq<Grant<GrantOn>>, i: nat)
    requires IsRun(run, CreateAccountGrant, UpdateAccountGrant) && i < |run|
    ensures AccountGrantName(run[i]) == AccountGrantName(run[0])
    ensures ResolveKind(run[i].on) == ResolveKind(run[0].on)
    ensures ResolvedPrivilege(run[i]) != "" && RoleText(run[i].role, run[i].roleRef) != ""
    ensures Description(run[i].on) == UNKNOWN <==> !Named(run[0].on)
  {
    var s0 := run[0];
    AlongRun(run, CreateAccountGrant, UpdateAccountGrant,
             (s: Grant<GrantOn>) => CreateAccountGrant(s), i);
    assert IsRun(run, (s: Grant<GrantOn>) => s == s0, UpdateAccountGrant);
    AlongRun(run, (s: Grant<GrantOn>) => s == s0, UpdateAccountGrant, (s: Grant<GrantOn>) => s == s0, i);
    UnknownIff(run[i].on);
    GrantNamesReal(run[i]);
  }

  lemma GrantNamesReal<T>(s: Grant<T>)
    requires AdmitGrant(s)
    ensures ResolvedPrivilege(s) != "" && RoleText(s.role, s.roleRef) != ""
  {
  }

  predicate CreateDatabaseGrant(s: Grant<DatabaseRoleOn>) {
    AdmitGrant(s) && AdmitDatabaseRoleOn(s.on)
  }

  predicate UpdateDatabaseGrant(s: Grant<DatabaseRoleOn>, t: Grant<DatabaseRoleOn>) {
    CreateDatabaseGrant(t) && KeepGrant(s, t)
  }

  function DatabaseGrantName(s: Grant<DatabaseRoleOn>): (name: string) {
    ResolvedPrivilege(s) + " " + DatabaseRoleDescription(s.on) + " -> DATABASE ROLE " + RoleText(s.role, s.roleRef)
  }

  /** The same for database role grants, whose kind can moreover be read off the reported
      target at any time. */
  lemma DatabaseGrantFixed(run: seq<Grant<DatabaseRoleOn>>, i: nat)
    requires IsRun(run, CreateDatabaseGrant, UpdateDatabaseGrant) && i < |run|
    ensures DatabaseGrantName(run[i]) == DatabaseGrantName(run[0])
    ensures DatabaseRoleKind(run[i].on) == DatabaseRoleKind(run[0].on)
    ensures DatabaseRoleKind(run[i].on).Future? <==> "ON FUTURE " <= DatabaseRoleDescription(run[i].on)
    ensures DatabaseRoleKind(run[i].on).All? <==> "ON ALL " <= DatabaseRoleDescription(run[i].on)
    ensures ResolvedPrivilege(run[i]) != "" && RoleText(run[i].role, run[i].roleRef) != ""
    ensures DatabaseRoleDescription(run[i].on) == UNKNOWN <==> !Named(Embed(run[0].on))
  {
    var s0 := run[0];
    AlongRun(run, CreateDatabaseGrant, UpdateDatabaseGrant,
             (s: Grant<DatabaseRoleOn>) => CreateDatabaseGrant(s), i);
    assert IsRun(run, (s: Grant<DatabaseRoleOn>) => s == s0, UpdateDatabaseGrant);
    AlongRun(run, (s: Grant<DatabaseRoleOn>) => s == s0, UpdateDatabaseGrant,
             (s: Grant<DatabaseRoleOn>) => s == s0, i);
    EmbedAgrees(run[i].on);
    UnknownIff(Embed(run[i].on));
    KindFromDescription(Embed(run[i].on));
    GrantNamesReal(run[i]);
  }

  // ---------------------------------------------------------------- what the names determine

  const ROLE_ARROW := " -> ROLE "
  const DATABASE_ROLE_ARROW := " -> DATABASE ROLE "

  lemma ArrowShapes()
    ensures IsArrow(ROLE_ARROW) && IsArrow(DATABASE_ROLE_ARROW)
  {
  }

  lemma DescriptionOn(on: GrantOn)
    ensures var d := Description(on); |d| > 2 && d[0] == 'O' && d[1] == 'N'
  {
  }

  /** What a reported name has to satisfy to be taken apart: a known privilege, a target with a name
      that is not spelled as a reference, and a role that hides no arrow. */
  ghost predicate Decodable(arrow: string, privilege: string, on: GrantOn, role: string) {
    && IsKnownPrivilege(privilege) && Admit(on) && Named(on) && Unambiguous(on)
    && role != "" && !HiddenInLast(arrow, role)
  }

  /** The shape shared by both kinds of grant. */
  lemma GrantTextDetermines(arrow: string, p: string, a: GrantOn, r: string, q: string, b: GrantOn, u: string)
    requires IsArrow(arrow)
    ensures Decodable(arrow, p, a, r) && Decodable(arrow, q, b, u) ==>
            (p + " " + Description(a) + arrow + r == q + " " + Description(b) + arrow + u <==>
             p == q && Normal(a) == Normal(b) && r == u)
  {
    if Decodable(arrow, p, a, r) && Decodable(arrow, q, b, u) {
      UniqueDecoding(a, b);
      if p + " " + Description(a) + arrow + r == q + " " + Description(b) + arrow + u {
        LastDetermined(arrow, p + " " + Description(a), r, q + " " + Description(b), u);
        DescriptionOn(a);
        DescriptionOn(b);
        PrivilegeDetermined(p, Description(a), q, Description(b));
      }
    }
  }

  /** The name of an account role grant determines the privilege, the target (up to what descriptions
      do not tell) and the printed role. */
  lemma AccountGrantNameDetermines(s: Grant<GrantOn>, t: Grant<GrantOn>)
    requires CreateAccountGrant(s) && CreateAccountGrant(t)
    ensures && Decodable(ROLE_ARROW, ResolvedPrivilege(s), s.on, RoleText(s.role, s.roleRef))
            && Decodable(ROLE_ARROW, ResolvedPrivilege(t), t.on, RoleText(t.role, t.roleRef)) ==>
            (AccountGrantName(s) == AccountGrantName(t) <==>
             && ResolvedPrivilege(s) == ResolvedPrivilege(t) && Normal(s.on) == Normal(t.on)
             && RoleText(s.role, s.roleRef) == RoleText(t.role, t.roleRef))
  {
    ArrowShapes();
    GrantTextDetermines(ROLE_ARROW, ResolvedPrivilege(s), s.on, RoleText(s.role, s.roleRef),
                        ResolvedPrivilege(t), t.on, RoleText(t.role, t.roleRef));
  }

  /** The same for database role grants. */
  lemma DatabaseGrantNameDetermines(s: Grant<DatabaseRoleOn>, t: Grant<DatabaseRoleOn>)
    requires CreateDatabaseGrant(s) && CreateDatabaseGrant(t)
    ensures && Decodable(DATABASE_ROLE_ARROW, ResolvedPrivilege(s), Embed(s.on), RoleText(s.role, s.roleRef))
            && Decodable(DATABASE_ROLE_ARROW, ResolvedPrivilege(t), Embed(t.on), RoleText(t.role, t.roleRef)) ==>
            (DatabaseGrantName(s) == DatabaseGrantName(t) <==>
             && ResolvedPrivilege(s) == ResolvedPrivilege(t) && Normal(Embed(s.on)) == Normal(Embed(t.on))
             && RoleText(s.role, s.roleRef) == RoleText(t.role, t.roleRef))
  {
    ArrowShapes();
    EmbedAgrees(s.on);
    EmbedAgrees(t.on);
    GrantTextDetermines(DATABASE_ROLE_ARROW, ResolvedPrivilege(s), Embed(s.on), RoleText(s.role, s.roleRef),
                        ResolvedPrivilege(t), Embed(t.on), RoleText(t.role, t.roleRef));
  }
}
