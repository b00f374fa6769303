/** The list flags of the manager and the registration of controllers (cmd/manager/main.go). */
module Flags {
  import opened Strings

  // ---------------------------------------------------------------- list flags

  /** The names a comma-separated flag lists: its parts, trimmed, without the blank ones. */
  ghost predicate Lists(flag: string, name: string) {
    name != "" && exists i :: 0 <= i < |Split(flag, ',')| && Trim(Split(flag, ',')[i]) == name
  }

  /** `parseDisabledControllers`. */
  method ParseDisabledControllers(flag: string) returns (disabled: set<string>)
    ensures forall n :: n in disabled <==> Lists(flag, n)
  {
    disabled := {};
    var parts := Split(flag, ',');
    if flag == "" {
      assert parts == [""];
      assert Trim("") == "";
      return;
    }
    for i := 0 to |parts|
      invariant forall n :: n in disabled <==> n != "" && exists k :: 0 <= k < i && Trim(parts[k]) == n
    {
      var name := Trim(parts[i]);
      if name != "" {
        disabled := disabled + {name};
      }
    }
  }

  /** `parseAllowedRoles`; `None` is Go's nil map, which allows every role. */
  method ParseAllowedRoles(flag: string) returns (roles: Option<set<string>>)
    ensures roles.Some? ==> roles.value != {} && forall r :: r in roles.value <==> ListsRole(flag, r)
    ensures roles.None? <==> forall r :: !ListsRole(flag, r)
  {
    var parts := Split(flag, ',');
    if flag == "" {
      assert parts == [""];
      assert Trim("") == "";
      return None;
    }
    var found: set<string> := {};
    for i := 0 to |parts|
      invariant forall r :: r in found <==>
                exists k :: 0 <= k < i && Trim(parts[k]) != "" && Upper(Trim(parts[k])) == r
    {
      var role := Trim(parts[i]);
      if role != "" {
        found := found + {Upper(role)};
      }
    }
    assert forall r :: r in found <==> ListsRole(flag, r);
    if |found| == 0 {
      return None;
    }
    return Some(found);
  }

  /** A role is listed when a part is it up to case and white space. */
  ghost predicate ListsRole(flag: string, role: string) {
    exists i :: 0 <= i < |Split(flag, ',')| && Trim(Split(flag, ',')[i]) != "" && Upper(Trim(Split(flag, ',')[i])) == role
  }

  /** A name that survives a list flag. */
  predicate Plain(name: string) {
    name != "" && Trimmed(name) && ',' !in name
  }

  /** Any spelling of a list of names, padded and with blank parts, lists exactly the names:
      blanks, spaces, order and repetitions do not matter. */
  lemma ListsPadded(parts: seq<string>, names: set<string>, n: string)
    requires |parts| >= 1 && forall i :: 0 <= i < |parts| ==> ',' !in parts[i]
    requires forall m :: m in names <==> m != "" && exists i :: 0 <= i < |parts| && Trim(parts[i]) == m
    ensures Lists(Join(parts, ","), n) <==> n in names
  {
    SplitJoin(parts, ',');
  }

  /** Round trip: names joined by commas are read back exactly. */
  lemma ListsJoined(names: seq<string>, n: string)
    requires |names| >= 1 && forall i :: 0 <= i < |names| ==> Plain(names[i])
    ensures Lists(Join(names, ","), n) <==> n in names
  {
    SplitJoin(names, ',');
    forall i | 0 <= i < |names| ensures Trim(names[i]) == names[i] {
      TrimTrimmed(names[i]);
    }
    if n in names {
      var i :| 0 <= i < |names| && names[i] == n;
      assert Trim(Split(Join(names, ","), ',')[i]) == n;
    }
  }

  /** Round trip for roles: names joined by commas are read back in upper case. */
  lemma RolesJoined(names: seq<string>, role: string)
    requires |names| >= 1 && forall i :: 0 <= i < |names| ==> Plain(names[i])
    ensures ListsRole(Join(names, ","), role) <==> exists i :: 0 <= i < |names| && Upper(names[i]) == role
  {
    SplitJoin(names, ',');
    forall i | 0 <= i < |names| ensures Trim(names[i]) == names[i] {
      TrimTrimmed(names[i]);
    }
    if i :| 0 <= i < |names| && Upper(names[i]) == role {
      assert Upper(Trim(Split(Join(names, ","), ',')[i])) == role;
    }
  }

  /** Upper-casing the whole flag lists the same roles. */
  lemma RolesUpperCased(flag: string, role: string)
    ensures ListsRole(Upper(flag), role) <==> ListsRole(flag, role)
  {
    var parts := Split(flag, ',');
    SplitUpper(flag, ',');
    forall i | 0 <= i < |parts|
      ensures var t := Trim(Split(Upper(flag), ',')[i]);
              (t != "" <==> Trim(parts[i]) != "") && Upper(t) == Upper(Trim(parts[i]))
    {
      TrimUpper(parts[i]);
      UpperIdempotent(Trim(parts[i]));
    }
  }

  lemma UpperPlain(name: string)
    requires Plain(name)
    ensures Plain(Upper(name))
  {
  }

  lemma TrimPlain(part: string)
    requires ',' !in part && Trim(part) != ""
    ensures Plain(Trim(part))
  {
  }

  /** What a part of a flag contributes is a plain name: trimmed, without commas, upper case. */
  lemma ListedRolePlain(flag: string, role: string)
    requires ListsRole(flag, role)
    ensures Plain(role) && Upper(role) == role
  {
    var parts := Split(flag, ',');
    var i :| 0 <= i < |parts| && Trim(parts[i]) != "" && Upper(Trim(parts[i])) == role;
    TrimPlain(parts[i]);
    UpperPlain(Trim(parts[i]));
    UpperIdempotent(Trim(parts[i]));
  }

  /** Re-joining the roles read from a flag, in any order, gives a flag that lists the same. */
  lemma RolesRejoined(flag: string, order: seq<string>, role: string)
    requires |order| >= 1 && forall r :: r in order <==> ListsRole(flag, r)
    ensures ListsRole(Join(order, ","), role) <==> ListsRole(flag, role)
  {
    forall i | 0 <= i < |order|
      ensures Plain(order[i]) && Upper(order[i]) == order[i] && Trim(order[i]) == order[i]
    {
      assert order[i] in order;
      ListedRolePlain(flag, order[i]);
      TrimTrimmed(order[i]);
    }
    SplitJoin(order, ',');
    if role in order {
      var i :| 0 <= i < |order| && order[i] == role;
      assert Upper(Trim(Split(Join(order, ","), ',')[i])) == role;
    }
  }

  // ---------------------------------------------------------------- registration

  /** `validateDisabledControllers`: the set is visited in no particular order; the error names
      some unknown controller. */
  method ValidateDisabledControllers(disabled: set<string>, names: seq<string>) returns (unknown: Option<string>)
    ensures unknown.None? <==> forall n :: n in disabled ==> n in names
    ensures unknown.Some? ==> unknown.value in disabled && unknown.value !in names
  {
    var valid: set<string> := {};
    for i := 0 to |names|
      invariant forall n :: n in valid <==> n in names[..i]
    {
      valid := valid + {names[i]};
    }
    assert names[..|names|] == names;
    var left := disabled;
    while left != {}
      invariant left <= disabled
      invariant forall n :: n in disabled && n !in left ==> n in names
      decreases left
    {
      var name :| name in left;
      if name !in valid {
        return Some(name);
      }
      left := left - {name};
    }
    return None;
  }

  /** A controller that has been set up, with its `Disabled` switch. */
  datatype Setup = Setup(name: string, disabled: bool)

  datatype Startup = Refused(unknown: string) | Registered(setups: seq<Setup>, fieldExport: bool, sqlStatement: bool)

  const STANDALONE: seq<string> := ["fieldexport", "sqlstatement"]

  /** From the flag to the registered controllers: names are collected, the flag is checked
      against them, and each entry of the table is set up once, in table order. */
  method Register(table: seq<string>, flag: string, alpha: bool, sql: bool) returns (r: Startup)
    ensures r.Refused? ==> Lists(flag, r.unknown) && r.unknown !in table && r.unknown !in STANDALONE
    ensures r.Refused? <==> exists n :: Lists(flag, n) && n !in table && n !in STANDALONE
    ensures r.Registered? ==> RegisteredAsListed(table, flag, r.setups)
    ensures r.Registered? ==> (r.fieldExport <==> alpha && !Lists(flag, "fieldexport"))
    ensures r.Registered? ==> (r.sqlStatement <==> sql && !Lists(flag, "sqlstatement"))
  {
    var disabled := ParseDisabledControllers(flag);
    var names: seq<string> := [];
    for i := 0 to |table|
      invariant names == table[..i]
    {
      names := names + [table[i]];
    }
    names := names + ["fieldexport"];
    names := names + ["sqlstatement"];
    assert names == table + STANDALONE;
    var unknown := ValidateDisabledControllers(disabled, names);
    if unknown.Some? {
      return Refused(unknown.value);
    }
    var setups: seq<Setup> := [];
    for i := 0 to |table|
      invariant |setups| == i
      invariant forall k :: 0 <= k < i ==> setups[k] == Setup(table[k], table[k] in disabled)
    {
      setups := setups + [Setup(table[i], table[i] in disabled)];
    }
    return Registered(setups, "fieldexport" !in disabled && alpha, "sqlstatement" !in disabled && sql);
  }

  /** One setup per table entry, disabled exactly when the flag lists it. */
  ghost predicate RegisteredAsListed(table: seq<string>, flag: string, setups: seq<Setup>) {
    && |setups| == |table|
    && forall k :: 0 <= k < |table| ==> setups[k].name == table[k] && (setups[k].disabled <==> Lists(flag, table[k]))
  }

  function Enabled(setups: seq<Setup>): (names: seq<string>) {
    if setups == [] then []
    else (if setups[0].disabled then [] else [setups[0].name]) + Enabled(setups[1..])
  }

  function Disabled(setups: seq<Setup>): (names: seq<string>) {
    if setups == [] then []
    else (if setups[0].disabled then [setups[0].name] else []) + Disabled(setups[1..])
  }

  lemma {:induction false} EnabledOrDisabled(table: seq<string>, setups: seq<Setup>)
    requires |setups| == |table| && forall k :: 0 <= k < |table| ==> setups[k].name == table[k]
    ensures multiset(Enabled(setups)) + multiset(Disabled(setups)) == multiset(table)
  {
    if table == [] {
    } else {
      EnabledOrDisabled(table[1..], setups[1..]);
      assert table == [table[0]] + table[1..];
      MovesOver(table[0], Enabled(setups[1..]), Disabled(setups[1..]), table[1..]);
    }
  }

  lemma MovesOver(x: string, e: seq<string>, d: seq<string>, all: seq<string>)
    requires multiset(e) + multiset(d) == multiset(all)
    ensures multiset([] + e) + multiset([x] + d) == multiset([x] + all)
    ensures multiset([x] + e) + multiset([] + d) == multiset([x] + all)
  {
    assert [] + e == e && [] + d == d;
    assert multiset([x] + d) == multiset{x} + multiset(d);
    assert multiset([x] + e) == multiset{x} + multiset(e);
    assert multiset([x] + all) == multiset{x} + multiset(all);
  }

  lemma {:induction false} EnabledMembers(setups: seq<Setup>, n: string)
    ensures n in Enabled(setups) <==> Setup(n, false) in setups
    ensures n in Disabled(setups) <==> Setup(n, true) in setups
  {
    if setups != [] {
      EnabledMembers(setups[1..], n);
      assert setups == [setups[0]] + setups[1..];
    }
  }

  /** Conservation: every table entry is either enabled or disabled, once, and the enabled ones
      are exactly those the flag does not list. */
  lemma RegistrationConserved(table: seq<string>, flag: string, setups: seq<Setup>)
    requires RegisteredAsListed(table, flag, setups)
    ensures multiset(Enabled(setups)) + multiset(Disabled(setups)) == multiset(table)
    ensures |Enabled(setups)| + |Disabled(setups)| == |table|
    ensures forall n :: n in Enabled(setups) <==> n in table && !Lists(flag, n)
    ensures forall n :: n in Disabled(setups) <==> n in table && Lists(flag, n)
  {
    EnabledOrDisabled(table, setups);
    assert |multiset(Enabled(setups)) + multiset(Disabled(setups))| == |multiset(table)|;
    forall n
      ensures n in Enabled(setups) <==> n in table && !Lists(flag, n)
      ensures n in Disabled(setups) <==> n in table && Lists(flag, n)
    {
      EnabledMembers(setups, n);
      if n in table {
        var k :| 0 <= k < |table| && table[k] == n;
        assert setups[k] == Setup(n, setups[k].disabled);
      }
    }
  }
}
