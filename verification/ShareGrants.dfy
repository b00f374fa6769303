/** Grants to shares (api/v1alpha1/grantprivilegestoshare_types.go and the share target of
    grant_types.go): the reported name determines the grant. */
module ShareGrants {
  import opened Arrows
  import opened GrantTarget
  import opened Lifecycle
  import opened Privileges
  import opened Strings

  // ---------------------------------------------------------------- share targets

  /** GrantPrivilegesToShareOn. */
  datatype ShareOn = ShareOn(
    database: Option<string>, schema: Option<string>, table: Option<string>, allTablesInSchema: Option<string>,
    function': Option<string>, tag: Option<string>, view: Option<string>)

  function Set(s: Option<string>): (n: int) {
    One(s.Some? && |s.value| > 0)
  }

  predicate AdmitShareOn(on: ShareOn) {
    && Set(on.database) + Set(on.schema) + Set(on.table) + Set(on.allTablesInSchema) + Set(on.function')
       + Set(on.tag) + Set(on.view) == 1
    && NonEmpty(on.database) && NonEmpty(on.schema) && NonEmpty(on.table) && NonEmpty(on.allTablesInSchema)
    && NonEmpty(on.function') && NonEmpty(on.tag) && NonEmpty(on.view)
  }

  /** `GrantPrivilegesToShareOn.Description`. */
  function ShareDescription(on: ShareOn): (d: string) {
    if on.database.Some? then "ON DATABASE " + on.database.value
    else if on.schema.Some? then "ON SCHEMA " + on.schema.value
    else if on.table.Some? then "ON TABLE " + on.table.value
    else if on.allTablesInSchema.Some? then "ON ALL TABLES IN SCHEMA " + on.allTablesInSchema.value
    else if on.function'.Some? then "ON FUNCTION " + on.function'.value
    else if on.tag.Some? then "ON TAG " + on.tag.value
    else if on.view.Some? then "ON VIEW " + on.view.value
    else UNKNOWN
  }

  /** `ObjectType`. */
  function ShareObjectType(on: ShareOn): (s: string) {
    if on.database.Some? then "DATABASE"
    else if on.schema.Some? then "SCHEMA"
    else if on.table.Some? then "TABLE"
    else if on.allTablesInSchema.Some? then "ALL TABLES IN SCHEMA"
    else if on.function'.Some? then "FUNCTION"
    else if on.tag.Some? then "TAG"
    else if on.view.Some? then "VIEW"
    else ""
  }

  /** `ObjectName`. */
  function ShareObjectName(on: ShareOn): (s: string) {
    if on.database.Some? then on.database.value
    else if on.schema.Some? then on.schema.value
    else if on.table.Some? then on.table.value
    else if on.allTablesInSchema.Some? then on.allTablesInSchema.value
    else if on.function'.Some? then on.function'.value
    else if on.tag.Some? then on.tag.value
    else if on.view.Some? then on.view.value
    else ""
  }

  /** The three accessors tell one story. */
  lemma AccessorsAgree(on: ShareOn)
    requires AdmitShareOn(on)
    ensures ShareDescription(on) == "ON " + ShareObjectType(on) + " " + ShareObjectName(on)
    ensures ShareObjectName(on) != ""
  {
    var n := ShareObjectName(on);
    assert "ON DATABASE " == "ON " + "DATABASE" + " " && "ON SCHEMA " == "ON " + "SCHEMA" + " ";
    assert "ON TABLE " == "ON " + "TABLE" + " " && "ON FUNCTION " == "ON " + "FUNCTION" + " ";
    assert "ON ALL TABLES IN SCHEMA " == "ON " + "ALL TABLES IN SCHEMA" + " ";
    assert "ON TAG " == "ON " + "TAG" + " " && "ON VIEW " == "ON " + "VIEW" + " ";
  }

  /** With nothing set, which admission rules out, the accessors say so. */
  lemma NothingShared()
    ensures var on := ShareOn(None, None, None, None, None, None, None);
            ShareDescription(on) == "ON <unknown>" && ShareObjectType(on) == "" && ShareObjectName(on) == ""
  {
  }

  /** The fourth and sixth letter of a description tell the seven targets apart. */
  lemma ShareLetters(on: ShareOn)
    requires AdmitShareOn(on)
    ensures var d := ShareDescription(on);
            && |d| > 6 && d[0] == 'O' && d[1] == 'N' && d[2] == ' '
            && (on.database.Some? <==> d[3] == 'D') && (on.schema.Some? <==> d[3] == 'S')
            && (on.table.Some? <==> d[3] == 'T' && d[5] == 'B')
            && (on.allTablesInSchema.Some? <==> d[3] == 'A') && (on.function'.Some? <==> d[3] == 'F')
            && (on.tag.Some? <==> d[3] == 'T' && d[5] == 'G') && (on.view.Some? <==> d[3] == 'V')
  {
  }

  /** A description determines its target. */
  lemma ShareDescriptionInjective(a: ShareOn, b: ShareOn)
    requires AdmitShareOn(a) && AdmitShareOn(b) && ShareDescription(a) == ShareDescription(b)
    ensures a == b
  {
    ShareLetters(a);
    ShareLetters(b);
    AccessorsAgree(a);
    AccessorsAgree(b);
    var head := "ON " + ShareObjectType(a) + " ";
    assert ShareObjectType(a) == ShareObjectType(b);
    assert ShareDescription(a)[|head|..] == ShareObjectName(a);
    assert ShareDescription(b)[|head|..] == ShareObjectName(b);
  }

  // ---------------------------------------------------------------- names

  datatype ShareGrant = ShareGrant(privilege: string, on: ShareOn, share: string, useRole: Option<string>)

  predicate AdmitShareGrant(g: ShareGrant) {
    g.privilege != "" && g.share != "" && AdmitShareOn(g.on) && NonEmpty(g.useRole)
  }

  predicate UpdateShareGrant(g: ShareGrant, h: ShareGrant) {
    && AdmitShareGrant(h)
    && h.privilege == g.privilege && h.on == g.on && h.share == g.share && Immutable(g.useRole, h.useRole)
  }

  const ARROW := " -> SHARE "

  /** `GetSpecName`. */
  function ShareGrantName(g: ShareGrant): (name: string) {
    g.privilege + " " + ShareDescription(g.on) + ARROW + g.share
  }

  /** The share name can itself be read as an object name, the arrow and a share name. */
  ghost predicate HidesArrow(share: string) {
    HiddenInLast(ARROW, share)
  }

  /** A known privilege and a share name that hides no arrow. */
  ghost predicate Decodable(g: ShareGrant) {
    IsKnownPrivilege(g.privilege) && !HidesArrow(g.share)
  }

  /** The names of two share grants are equal if and only if privilege, target and share are, for
      known privileges and share names that do not hide an arrow. */
  lemma ShareGrantNameInjective(g: ShareGrant, h: ShareGrant)
    requires AdmitShareGrant(g) && AdmitShareGrant(h)
    ensures Decodable(g) && Decodable(h) ==>
            (ShareGrantName(g) == ShareGrantName(h) <==>
             g.privilege == h.privilege && g.on == h.on && g.share == h.share)
  {
    if Decodable(g) && Decodable(h) && ShareGrantName(g) == ShareGrantName(h) {
      var x, y := g.privilege + " " + ShareDescription(g.on), h.privilege + " " + ShareDescription(h.on);
      LastDetermined(ARROW, x, g.share, y, h.share);
      ShareLetters(g.on);
      ShareLetters(h.on);
      PrivilegeDetermined(g.privilege, ShareDescription(g.on), h.privilege, ShareDescription(h.on));
      ShareDescriptionInjective(g.on, h.on);
    }
  }

  // ---------------------------------------------------------------- the condition is needed

  function Longer(s: Option<string>, suffix: string): (r: Option<string>) {
    if s.Some? then Some(s.value + suffix) else None
  }

  /** The same kind of target with a longer object name. */
  function Extend(on: ShareOn, suffix: string): (r: ShareOn) {
    ShareOn(Longer(on.database, suffix), Longer(on.schema, suffix), Longer(on.table, suffix),
            Longer(on.allTablesInSchema, suffix), Longer(on.function', suffix), Longer(on.tag, suffix),
            Longer(on.view, suffix))
  }

  lemma ExtendDescribes(on: ShareOn, suffix: string)
    requires AdmitShareOn(on)
    ensures AdmitShareOn(Extend(on, suffix))
    ensures ShareDescription(Extend(on, suffix)) == ShareDescription(on) + suffix
  {
    var e := Extend(on, suffix);
    assert ShareObjectName(e) == ShareObjectName(on) + suffix;
    AccessorsAgree(on);
    AccessorsAgree(e);
    var head := "ON " + ShareObjectType(on) + " ";
    assert head + (ShareObjectName(on) + suffix) == head + ShareObjectName(on) + suffix;
  }

  /** The CRD's limits on the length of names. */
  predicate WithinLimits(g: ShareGrant) {
    |g.privilege| <= 255 && |ShareObjectName(g.on)| <= 255 && |g.share| <= 255
  }

  /** Every share grant whose share name hides an arrow has the name of another grant, with the
      same privilege, a longer object name and a shorter share; the other grant is within the
      limits on lengths as long as its object name is. */
  lemma HiddenArrowCollides(g: ShareGrant, i: nat) returns (h: ShareGrant)
    requires AdmitShareGrant(g) && HiddenInLastAt(ARROW, g.share, i)
    ensures AdmitShareGrant(h) && h.privilege == g.privilege && h.share != g.share
    ensures ShareGrantName(h) == ShareGrantName(g)
    ensures |ShareObjectName(h.on)| == |ShareObjectName(g.on)| + 9 + i
    ensures WithinLimits(g) ==> (WithinLimits(h) <==> |ShareObjectName(g.on)| + 9 + i <= 255)
  {
    var padded := " " + g.share;
    var u, w := padded[..i], padded[i + 10..];
    assert padded == u + ARROW + w;
    h := g.(on := Extend(g.on, " -> SHARE" + u), share := w);
    ExtendDescribes(g.on, " -> SHARE" + u);
    Regroup(g.privilege + " ", ShareDescription(g.on), g.share, u, w);
  }

  lemma Regroup(p: string, d: string, share: string, u: string, w: string)
    requires " " + share == u + ARROW + w
    ensures p + d + ARROW + share == p + (d + (" -> SHARE" + u)) + ARROW + w
  {
    assert p + d + ARROW + share == p + d + " -> SHARE" + (" " + share);
    assert p + d + " -> SHARE" + (u + ARROW + w) == p + (d + (" -> SHARE" + u)) + ARROW + w;
  }

  /** A share name that hides an arrow holds a '>'. */
  lemma HiddenArrowHasAngle(share: string)
    requires HidesArrow(share)
    ensures '>' in share
  {
    var i :| HiddenInLastAt(ARROW, share, i);
    assert (" " + share)[i..i + 10][2] == '>';
    assert (" " + share)[i + 2] == share[i + 1];
  }

  /** Over every run, the name a share grant reports is the name it was created with. */
  lemma ShareGrantFixed(run: seq<ShareGrant>, i: nat)
    requires IsRun(run, AdmitShareGrant, UpdateShareGrant) && i < |run|
    ensures ShareGrantName(run[i]) == ShareGrantName(run[0]) && AdmitShareGrant(run[i])
    ensures ShareDescription(run[i].on) != UNKNOWN
  {
    var g0 := run[0];
    AlongRun(run, AdmitShareGrant, UpdateShareGrant, AdmitShareGrant, i);
    assert IsRun(run, (g: ShareGrant) => g == g0, UpdateShareGrant);
    AlongRun(run, (g: ShareGrant) => g == g0, UpdateShareGrant, (g: ShareGrant) => g == g0, i);
    ShareLetters(run[i].on);
  }
}
