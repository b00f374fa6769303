/** Confinement of the workload identity token file: the textual test of
    `ProviderConfigSpec.Validate` (a cleaned path with a fixed prefix) against where the path
    leads when it is walked component by component. */
module TokenPath {
  import opened Strings

  // ---------------------------------------------------------------- filepath.Clean

  /** The documented rules of Go's `filepath.Clean`, one component at a time: empty and "."
      components are dropped, ".." removes the component before it, or is dropped at the root. */
  function CleanStep(rooted: bool, stack: seq<string>, c: string): (r: seq<string>) {
    if c == "" || c == "." then stack
    else if c == ".." then
      if stack != [] && stack[|stack| - 1] != ".." then stack[..|stack| - 1]
      else if rooted then stack
      else stack + [c]
    else stack + [c]
  }

  function CleanParts(rooted: bool, stack: seq<string>, parts: seq<string>): (r: seq<string>)
    decreases parts
  {
    if parts == [] then stack else CleanParts(rooted, CleanStep(rooted, stack, parts[0]), parts[1..])
  }

  predicate Rooted(p: string) {
    p != "" && p[0] == '/'
  }

  function Clean(p: string): (r: string) {
    var text := (if Rooted(p) then "/" else "") + Join(CleanParts(Rooted(p), [], Split(p, '/')), "/");
    if text == "" then "." else text
  }

  // ---------------------------------------------------------------- where a path leads

  /** A directory, as the names on the way down from the root. */
  type Directory = seq<string>

  function Enter(at: Directory, c: string): (r: Directory) {
    if c == "" || c == "." then at
    else if c == ".." then (if at == [] then [] else at[..|at| - 1])
    else at + [c]
  }

  function Walk(at: Directory, parts: seq<string>): (r: Directory)
    decreases parts
  {
    if parts == [] then at else Walk(Enter(at, parts[0]), parts[1..])
  }

  /** The place a rooted path names. */
  function Location(p: string): (r: Directory)
    requires Rooted(p)
  {
    Walk([], Split(p, '/'))
  }

  // ---------------------------------------------------------------- the two agree

  /** A name that stands for a step down. */
  predicate Ordinary(c: string) {
    c != "" && c != "." && c != ".." && '/' !in c
  }

  predicate AllOrdinary(s: seq<string>) {
    forall i :: 0 <= i < |s| ==> Ordinary(s[i])
  }

  lemma {:induction false} CleanIsWalk(at: seq<string>, parts: seq<string>)
    requires AllOrdinary(at) && forall i :: 0 <= i < |parts| ==> '/' !in parts[i]
    ensures CleanParts(true, at, parts) == Walk(at, parts) && AllOrdinary(Walk(at, parts))
    decreases parts
  {
    if parts != [] {
      assert CleanStep(true, at, parts[0]) == Enter(at, parts[0]);
      CleanIsWalk(Enter(at, parts[0]), parts[1..]);
    }
  }

  /** Cleaning a rooted path spells out where it leads. */
  lemma CleanRooted(p: string)
    requires Rooted(p)
    ensures Clean(p) == "/" + Join(Location(p), "/") && AllOrdinary(Location(p))
  {
    CleanIsWalk([], Split(p, '/'));
  }

  predicate Solid(s: seq<string>) {
    forall i :: 0 <= i < |s| ==> s[i] != "" && '/' !in s[i]
  }

  lemma {:induction false} CleanPartsSolid(rooted: bool, stack: seq<string>, parts: seq<string>)
    requires Solid(stack) && forall i :: 0 <= i < |parts| ==> '/' !in parts[i]
    ensures Solid(CleanParts(rooted, stack, parts))
    decreases parts
  {
    if parts != [] {
      CleanPartsSolid(rooted, CleanStep(rooted, stack, parts[0]), parts[1..]);
    }
  }

  /** A relative path stays relative. */
  lemma CleanRelative(p: string)
    requires !Rooted(p)
    ensures Clean(p) != "" && Clean(p)[0] != '/'
  {
    var st := CleanParts(false, [], Split(p, '/'));
    CleanPartsSolid(false, [], Split(p, '/'));
    if st != [] {
      assert Join(st, "/")[0] == st[0][0];
    }
  }

  /** What a partly cleaned relative path can look like: steps up, then steps down. */
  predicate UpThenDown(st: seq<string>) {
    forall i :: 0 <= i < |st| ==> st[i] == ".." || Ordinary(st[i])
  }

  lemma {:induction false} WalkConcat(at: Directory, a: seq<string>, b: seq<string>)
    ensures Walk(at, a + b) == Walk(Walk(at, a), b)
    decreases a
  {
    if a == [] {
      assert a + b == b;
    } else {
      assert (a + b)[1..] == a[1..] + b;
      WalkConcat(Enter(at, a[0]), a[1..], b);
    }
  }

  lemma WalkLast(at: Directory, a: seq<string>, c: string)
    ensures Walk(at, a + [c]) == Enter(Walk(at, a), c)
  {
    WalkConcat(at, a, [c]);
    assert [c][1..] == [];
  }

  lemma CleanStepWalks(at: Directory, st: seq<string>, c: string)
    requires UpThenDown(st) && '/' !in c
    ensures UpThenDown(CleanStep(false, st, c)) && Walk(at, CleanStep(false, st, c)) == Enter(Walk(at, st), c)
  {
    if c == ".." && st != [] && st[|st| - 1] != ".." {
      var front, last := st[..|st| - 1], st[|st| - 1];
      assert st == front + [last] && Ordinary(last);
      WalkLast(at, front, last);
      var w := Walk(at, front);
      assert (w + [last])[..|w + [last]| - 1] == w;
    } else if c != "" && c != "." {
      WalkLast(at, st, c);
    }
  }

  lemma {:induction false} CleanPartsWalk(at: Directory, st: seq<string>, parts: seq<string>)
    requires UpThenDown(st) && forall i :: 0 <= i < |parts| ==> '/' !in parts[i]
    ensures var r := CleanParts(false, st, parts);
            UpThenDown(r) && Walk(at, r) == Walk(Walk(at, st), parts)
    decreases parts
  {
    if parts != [] {
      CleanStepWalks(at, st, parts[0]);
      CleanPartsWalk(at, CleanStep(false, st, parts[0]), parts[1..]);
    }
  }

  /** A cleaned relative path leads to the same place from everywhere, and is never empty. */
  lemma CleanRelativeWalks(at: Directory, p: string)
    requires p == "" || p[0] != '/'
    ensures Clean(p) != "" && Walk(at, Split(Clean(p), '/')) == Walk(at, Split(p, '/'))
  {
    var st := CleanParts(false, [], Split(p, '/'));
    CleanPartsWalk(at, [], Split(p, '/'));
    if st == [] {
      assert Clean(p) == ".";
      SplitAtom(".", '/');
      assert Walk(at, ["."]) == Walk(Enter(at, "."), []) by {
        assert ["."][1..] == [];
      }
    } else {
      assert st[0] != "" && Join(st, "/") != "";
      assert "" + Join(st, "/") == Join(st, "/");
      SplitJoin(st, '/');
    }
  }

  lemma JoinedPrefix(dir: Directory, loc: Directory, rest: string)
    requires Solid(dir) && Solid(loc) && dir != [] && Join(loc, "/") == Join(dir, "/") + "/" + rest
    ensures dir < loc
  {
    SplitConcat(Join(dir, "/"), '/', rest);
    SplitJoin(dir, '/');
    assert loc != [];
    SplitJoin(loc, '/');
    assert loc == dir + Split(rest, '/');
  }

  /** What is left of a text behind a prefix between slashes. */
  lemma Behind(a: string, b: string)
    requires ("/" + a + "/") <= ("/" + b)
    ensures |a| + 1 <= |b| && b == a + "/" + b[|a| + 1..]
  {
    var pre, text := "/" + a + "/", "/" + b;
    assert b == text[1..];
    assert b[..|a| + 1] == text[..|pre|][1..] == pre[1..] == a + "/";
    assert b == b[..|a| + 1] + b[|a| + 1..];
  }

  lemma TextPrefixOnly(dir: Directory, loc: Directory)
    requires Solid(dir) && Solid(loc) && dir != []
    requires ("/" + Join(dir, "/") + "/") <= ("/" + Join(loc, "/"))
    ensures dir < loc
  {
    var a, b := Join(dir, "/"), Join(loc, "/");
    Behind(a, b);
    JoinedPrefix(dir, loc, b[|a| + 1..]);
  }

  lemma InFront(a: string, c: string)
    ensures ("/" + a + "/") <= ("/" + (a + "/" + c))
  {
    assert "/" + (a + "/" + c) == ("/" + a + "/") + c;
  }

  lemma TextPrefixIf(dir: Directory, loc: Directory)
    requires dir != [] && dir < loc
    ensures ("/" + Join(dir, "/") + "/") <= ("/" + Join(loc, "/"))
  {
    var tail := loc[|dir|..];
    assert loc == dir + tail;
    JoinConcat(dir, tail, "/");
    InFront(Join(dir, "/"), Join(tail, "/"));
  }

  /** A prefix of the text that ends in a slash is a proper prefix of the names. */
  lemma TextPrefixIff(dir: Directory, loc: Directory)
    requires Solid(dir) && Solid(loc) && dir != []
    ensures ("/" + Join(dir, "/") + "/") <= ("/" + Join(loc, "/")) <==> dir < loc
  {
    if ("/" + Join(dir, "/") + "/") <= ("/" + Join(loc, "/")) {
      TextPrefixOnly(dir, loc);
    }
    if dir < loc {
      TextPrefixIf(dir, loc);
    }
  }

  const SECRETS: Directory := ["var", "run", "secrets"]
  const SECRETS_PREFIX := "/var/run/secrets/"

  lemma SecretsText()
    ensures SECRETS_PREFIX == "/" + Join(SECRETS, "/") + "/"
  {
  }

  /** Confinement: the textual test accepts a path if and only if it is absolute and walking
      it ends strictly below /var/run/secrets, whatever dots and slashes it contains. */
  lemma ConfinedIff(p: string)
    ensures SECRETS_PREFIX <= Clean(p) <==> "/" <= p && SECRETS < Location(p)
  {
    SecretsText();
    if Rooted(p) {
      CleanRooted(p);
      assert Solid(SECRETS);
      TextPrefixIff(SECRETS, Location(p));
    } else {
      CleanRelative(p);
      assert SECRETS_PREFIX[0] == '/';
    }
  }

  lemma {:induction false} WalkOrdinary(at: seq<string>, parts: seq<string>)
    requires AllOrdinary(parts)
    ensures Walk(at, parts) == at + parts
    decreases parts
  {
    if parts != [] {
      WalkOrdinary(at + [parts[0]], parts[1..]);
    }
  }

  /** A path spelled from ordinary names leads exactly there. */
  lemma LocationOfNames(names: seq<string>)
    requires names != [] && AllOrdinary(names)
    ensures Rooted("/" + Join(names, "/")) && Location("/" + Join(names, "/")) == names
  {
    var text := Join(names, "/");
    SplitHead("", '/', text);
    assert "" + "/" + text == "/" + text;
    SplitJoin(names, '/');
    assert ([""] + names)[1..] == names;
    WalkOrdinary([], names);
  }

  /** Cleaning changes the spelling, not the place, and cleaning twice changes nothing more. */
  lemma CleanPreservesLocation(p: string)
    requires Rooted(p)
    ensures Rooted(Clean(p)) && Location(Clean(p)) == Location(p)
    ensures Clean(Clean(p)) == Clean(p)
  {
    CleanRooted(p);
    var loc := Location(p);
    if loc == [] {
      assert Clean(p) == "/";
      SplitHead("", '/', "");
      assert "" + "/" + "" == "/";
      assert Split("/", '/') == ["", ""];
      assert ["", ""][1..] == [""];
      assert Walk([], ["", ""]) == Walk([], [""]) == Walk([], []);
    } else {
      LocationOfNames(loc);
    }
    CleanRooted(Clean(p));
  }

  const DEFAULT_TOKEN_PATH := "/var/run/secrets/snowflake/token"

  const DEFAULT_NAMES: Directory := ["snowflake", "token"]

  lemma DefaultNamesOrdinary()
    ensures AllOrdinary(SECRETS) && AllOrdinary(DEFAULT_NAMES)
  {
  }

  lemma DefaultText()
    ensures "/" + Join(SECRETS + DEFAULT_NAMES, "/") == DEFAULT_TOKEN_PATH
  {
    var tail := DEFAULT_NAMES;
    assert tail[1..] == ["token"];
    JoinConcat(SECRETS, tail, "/");
    SecretsText();
    assert "/" + (Join(SECRETS, "/") + "/" + Join(tail, "/")) == SECRETS_PREFIX + Join(tail, "/");
    assert Join(tail, "/") == "snowflake" + "/" + "token";
    assert SECRETS_PREFIX + ("snowflake" + "/" + "token") == DEFAULT_TOKEN_PATH;
  }

  /** The default path passes the test. */
  lemma DefaultConfined()
    ensures SECRETS_PREFIX <= Clean(DEFAULT_TOKEN_PATH)
  {
    DefaultText();
    DefaultNamesOrdinary();
    LocationOfNames(SECRETS + DEFAULT_NAMES);
    ConfinedIff(DEFAULT_TOKEN_PATH);
  }
}
