/** Values embedded in SQL text (internal/clients/snowflake/sqlbuilder/builder.go), qualified
    names (internal/clients/snowflake/identifier.go) and the webhook headers
    (internal/clients/snowflake/notification_helpers.go): what is written is read back. */
module SqlText {
  import opened Strings

  // ---------------------------------------------------------------- escaping

  /** `strings.ReplaceAll` for a one-character pattern. */
  function ReplaceAll(s: string, c: char, sub: string): (r: string) {
    if s == "" then "" else (if s[0] == c then sub else [s[0]]) + ReplaceAll(s[1..], c, sub)
  }

  const NUL := '\U{0}'

  function StripNul(s: string): (r: string) {
    ReplaceAll(s, NUL, "")
  }

  /** `EscapeString`: three passes. */
  function EscapeString(s: string): (r: string) {
    ReplaceAll(ReplaceAll(StripNul(s), '\\', "\\\\"), '\'', "''")
  }

  /** `QuoteIdentifier`. */
  function QuoteIdentifier(name: string): (r: string) {
    "\"" + ReplaceAll(StripNul(name), '"', "\"\"") + "\""
  }

  lemma {:induction false} ReplaceConcat(a: string, b: string, c: char, sub: string)
    ensures ReplaceAll(a + b, c, sub) == ReplaceAll(a, c, sub) + ReplaceAll(b, c, sub)
  {
    if a == "" {
      assert a + b == b;
    } else {
      assert (a + b)[1..] == a[1..] + b;
      ReplaceConcat(a[1..], b, c, sub);
    }
  }

  /** NUL bytes are removed, and nothing else: text by text and character by character. */
  lemma StripNulConcat(a: string, b: string)
    ensures StripNul(a + b) == StripNul(a) + StripNul(b)
  {
    ReplaceConcat(a, b, '\U{0}', "");
  }

  lemma StripNulChar(c: char)
    ensures StripNul([c]) == if c == '\U{0}' then "" else [c]
  {
    assert [c][1..] == "";
    assert ReplaceAll([c], NUL, "") == (if c == NUL then "" else [c]) + ReplaceAll("", NUL, "");
    assert ReplaceAll("", NUL, "") == "";
  }

  lemma {:induction false} StripNulFree(s: string)
    requires '\U{0}' !in s
    ensures StripNul(s) == s
  {
    if s != "" {
      StripNulChar(s[0]);
      StripNulFree(s[1..]);
      StripNulConcat([s[0]], s[1..]);
      assert s == [s[0]] + s[1..];
    }
  }

  // ---------------------------------------------------------------- string literals

  /** How Snowflake reads a single-quoted literal from behind the opening quote: a backslash
      escapes the next character, a doubled quote is a quote, a single one ends the literal.
      The result is the value and the text after the literal. */
  function ReadLiteral(s: string): (r: Option<(string, string)>) {
    if s == "" then None
    else if s[0] == '\\' then
      if |s| == 1 then None
      else
        var rest := ReadLiteral(s[2..]);
        if rest.None? then None else Some(([s[1]] + rest.value.0, rest.value.1))
    else if s[0] == '\'' then
      if |s| > 1 && s[1] == '\'' then
        var rest := ReadLiteral(s[2..]);
        if rest.None? then None else Some((['\''] + rest.value.0, rest.value.1))
      else Some(("", s[1..]))
    else
      var rest := ReadLiteral(s[1..]);
      if rest.None? then None else Some(([s[0]] + rest.value.0, rest.value.1))
  }

  /** What is left after a literal is the end of the text. */
  lemma {:induction false} LiteralRest(s: string)
    ensures var r := ReadLiteral(s); r.Some? ==> |r.value.1| < |s| && s[|s| - |r.value.1|..] == r.value.1
    decreases |s|
  {
    if |s| >= 1 {
      LiteralRest(s[1..]);
    }
    if |s| >= 2 {
      LiteralRest(s[2..]);
    }
  }

  /** What one character becomes. */
  function EscapeChar(c: char): (r: string) {
    if c == '\\' then "\\\\" else if c == '\'' then "''" else [c]
  }

  /** The two escaping passes in one. */
  function EscapeOnce(s: string): (r: string) {
    if s == "" then "" else EscapeChar(s[0]) + EscapeOnce(s[1..])
  }

  /** The passes of `EscapeString` amount to one pass over the characters. */
  lemma {:induction false} PassesFuse(s: string)
    ensures ReplaceAll(ReplaceAll(s, '\\', "\\\\"), '\'', "''") == EscapeOnce(s)
  {
    if s != "" {
      PassesFuse(s[1..]);
      var tail := ReplaceAll(s[1..], '\\', "\\\\");
      if s[0] == '\\' {
        assert ReplaceAll(s, '\\', "\\\\") == "\\\\" + tail;
        ReplaceConcat("\\\\", tail, '\'', "''");
        assert "\\\\"[1..] == "\\" && "\\"[1..] == "";
        assert ReplaceAll("\\", '\'', "''") == "\\" + ReplaceAll("", '\'', "''");
        assert ReplaceAll("\\\\", '\'', "''") == "\\" + ReplaceAll("\\", '\'', "''") == "\\\\";
      } else {
        assert ReplaceAll(s, '\\', "\\\\") == [s[0]] + tail;
        ReplaceConcat([s[0]], tail, '\'', "''");
        assert [s[0]][1..] == "";
      }
    }
  }

  lemma {:induction false} ReadEscaped(v: string, rest: string)
    requires rest == "" || rest[0] != '\''
    ensures ReadLiteral(EscapeOnce(v) + "'" + rest) == Some((v, rest))
  {
    var s := EscapeOnce(v) + "'" + rest;
    if v == "" {
      assert s[1..] == rest;
    } else {
      ReadEscaped(v[1..], rest);
      var tail := EscapeOnce(v[1..]) + "'" + rest;
      assert s == EscapeChar(v[0]) + tail;
      assert [v[0]] + v[1..] == v;
      if v[0] == '\\' || v[0] == '\'' {
        assert s[2..] == tail;
      } else {
        assert s[1..] == tail;
      }
    }
  }

  /** An escaped value between quotes reads back as the value, NUL bytes dropped, and the
      literal ends exactly where it was meant to, whatever the value and whatever follows it
      other than another quote. */
  lemma LiteralReadBack(v: string, rest: string)
    requires rest == "" || rest[0] != '\''
    ensures ReadLiteral(EscapeString(v) + "'" + rest) == Some((StripNul(v), rest))
  {
    PassesFuse(StripNul(v));
    ReadEscaped(StripNul(v), rest);
  }

  /** In particular any text without NUL bytes survives as it is. */
  lemma LiteralRoundTrip(v: string, rest: string)
    requires '\U{0}' !in v && (rest == "" || rest[0] != '\'')
    ensures ReadLiteral(EscapeString(v) + "'" + rest) == Some((v, rest))
  {
    StripNulFree(v);
    LiteralReadBack(v, rest);
  }

  // ---------------------------------------------------------------- qualified names

  /** How a quoted identifier is read, from behind its opening quote. */
  function ReadIdentifier(s: string): (r: Option<(string, string)>) {
    if s == "" then None
    else if s[0] == '"' then
      if |s| > 1 && s[1] == '"' then
        var rest := ReadIdentifier(s[2..]);
        if rest.None? then None else Some((['"'] + rest.value.0, rest.value.1))
      else Some(("", s[1..]))
    else
      var rest := ReadIdentifier(s[1..]);
      if rest.None? then None else Some(([s[0]] + rest.value.0, rest.value.1))
  }

  /** A quoted identifier reads back as the name, NUL bytes dropped, and ends where it was meant to. */
  lemma IdentifierReadBack(name: string, rest: string)
    requires rest == "" || rest[0] != '"'
    ensures var s := QuoteIdentifier(name) + rest;
            s[0] == '"' && ReadIdentifier(s[1..]) == Some((StripNul(name), rest))
  {
    var body := ReplaceAll(StripNul(name), '"', "\"\"");
    assert (QuoteIdentifier(name) + rest)[1..] == body + "\"" + rest;
    DoubledReadBack(StripNul(name), rest);
  }

  lemma {:induction false} DoubledReadBack(name: string, rest: string)
    requires rest == "" || rest[0] != '"'
    ensures ReadIdentifier(ReplaceAll(name, '"', "\"\"") + "\"" + rest) == Some((name, rest))
  {
    var s := ReplaceAll(name, '"', "\"\"") + "\"" + rest;
    if name == "" {
      assert s[1..] == rest;
    } else {
      DoubledReadBack(name[1..], rest);
      var tail := ReplaceAll(name[1..], '"', "\"\"") + "\"" + rest;
      assert [name[0]] + name[1..] == name;
      if name[0] == '"' {
        assert s[2..] == tail;
      } else {
        assert s[1..] == tail;
      }
    }
  }

  function MapQuote(parts: seq<string>): (r: seq<string>)
    ensures |r| == |parts|
  {
    seq(|parts|, i requires 0 <= i < |parts| => QuoteIdentifier(parts[i]))
  }

  function MapStrip(parts: seq<string>): (r: seq<string>)
    ensures |r| == |parts|
  {
    seq(|parts|, i requires 0 <= i < |parts| => StripNul(parts[i]))
  }

  /** `FullyQualifiedName` of an account (one part), database (two) or schema (three) object. */
  function FullyQualifiedName(parts: seq<string>): (r: string) {
    Join(MapQuote(parts), ".")
  }

  /** How a qualified name is read: the parts between quotes. */
  function ReadQualified(s: string): (parts: seq<string>)
    decreases |s|
  {
    if s == "" || s[0] != '"' then []
    else
      var r := ReadIdentifier(s[1..]);
      if r.None? || |r.value.1| >= |s| then []
      else [r.value.0] + (if r.value.1 != "" && r.value.1[0] == '.' then ReadQualified(r.value.1[1..]) else [])
  }

  lemma {:induction false} QualifiedReadBack(parts: seq<string>)
    requires |parts| >= 1
    ensures ReadQualified(FullyQualifiedName(parts)) == MapStrip(parts)
  {
    var s := FullyQualifiedName(parts);
    var body := ReplaceAll(StripNul(parts[0]), '"', "\"\"");
    if |parts| == 1 {
      assert s[1..] == body + "\"" + "";
      DoubledReadBack(StripNul(parts[0]), "");
    } else {
      var tail := FullyQualifiedName(parts[1..]);
      assert MapQuote(parts)[1..] == MapQuote(parts[1..]);
      assert s[1..] == body + "\"" + ("." + tail);
      DoubledReadBack(StripNul(parts[0]), "." + tail);
      QualifiedReadBack(parts[1..]);
      assert ("." + tail)[1..] == tail;
      assert MapStrip(parts) == [StripNul(parts[0])] + MapStrip(parts[1..]);
    }
  }

  lemma IdentifierRoundTrip(name: string, rest: string)
    requires '\U{0}' !in name && (rest == "" || rest[0] != '"')
    ensures var s := QuoteIdentifier(name) + rest;
            s[0] == '"' && ReadIdentifier(s[1..]) == Some((name, rest))
  {
    StripNulFree(name);
    IdentifierReadBack(name, rest);
  }

  /** Names without NUL bytes read back part by part as they are, so different lists of names never
      give the same qualified name. */
  lemma QualifiedRoundTrip(parts: seq<string>)
    requires |parts| >= 1 && forall i :: 0 <= i < |parts| ==> '\U{0}' !in parts[i]
    ensures ReadQualified(FullyQualifiedName(parts)) == parts
  {
    QualifiedReadBack(parts);
    forall i | 0 <= i < |parts| ensures MapStrip(parts)[i] == parts[i] {
      StripNulFree(parts[i]);
    }
  }

  lemma QualifiedNamesDiffer(a: seq<string>, b: seq<string>)
    requires |a| >= 1 && forall i :: 0 <= i < |a| ==> '\U{0}' !in a[i]
    requires |b| >= 1 && forall i :: 0 <= i < |b| ==> '\U{0}' !in b[i]
    ensures FullyQualifiedName(a) == FullyQualifiedName(b) <==> a == b
  {
    QualifiedRoundTrip(a);
    QualifiedRoundTrip(b);
  }

  /** Two objects have the same qualified name, hence the same ownership label, if and only if
      their names agree part by part once NUL bytes are dropped; in particular names of
      different depth never coincide. */
  lemma QualifiedNameInjective(a: seq<string>, b: seq<string>)
    requires |a| >= 1 && |b| >= 1
    ensures FullyQualifiedName(a) == FullyQualifiedName(b) <==> MapStrip(a) == MapStrip(b)
  {
    QualifiedReadBack(a);
    QualifiedReadBack(b);
    if MapStrip(a) == MapStrip(b) {
      forall i | 0 <= i < |a| ensures MapQuote(a)[i] == MapQuote(b)[i] {
        assert MapStrip(a)[i] == MapStrip(b)[i];
      }
      assert MapQuote(a) == MapQuote(b);
    }
  }

  // ---------------------------------------------------------------- order of strings

  /** Go's `<` on strings; comparing code points gives the order of the UTF-8 bytes. */
  predicate Less(a: string, b: string) {
    b != "" && (a == "" || a[0] < b[0] || (a[0] == b[0] && Less(a[1..], b[1..])))
  }

  lemma {:induction false} LessTotal(a: string, b: string)
    ensures Less(a, b) || Less(b, a) || a == b
    ensures !(Less(a, b) && Less(b, a)) && !Less(a, a)
  {
    if a != "" && b != "" {
      LessTotal(a[1..], b[1..]);
      assert a == [a[0]] + a[1..] && b == [b[0]] + b[1..];
    }
    if a != "" { LessTotal(a[1..], a[1..]); }
  }

  lemma {:induction false} LessTransitive(a: string, b: string, c: string)
    requires Less(a, b) && Less(b, c)
    ensures Less(a, c)
  {
    if a != "" && a[0] == b[0] && b[0] == c[0] {
      LessTransitive(a[1..], b[1..], c[1..]);
    }
  }

  predicate StrictlySorted(ks: seq<string>) {
    forall i, j :: 0 <= i < j < |ks| ==> Less(ks[i], ks[j])
  }

  /** `ks` lists the keys in strictly increasing order. */
  ghost predicate Enumerates(ks: seq<string>, keys: set<string>) {
    StrictlySorted(ks) && forall k :: k in ks <==> k in keys
  }

  /** There is only one such list. */
  lemma {:induction false} EnumerationUnique(a: seq<string>, b: seq<string>, keys: set<string>)
    requires Enumerates(a, keys) && Enumerates(b, keys)
    ensures a == b
    decreases a
  {
    assert a != [] ==> a[0] in keys;
    assert b != [] ==> b[0] in keys;
    if a != [] && b != [] {
      assert a[0] in a && a[0] in b;
      assert b[0] in b && b[0] in a;
      var i :| 0 <= i < |b| && b[i] == a[0];
      var j :| 0 <= j < |a| && a[j] == b[0];
      LessTotal(a[0], b[0]);
      assert a[0] == b[0];
      SortedTail(a, keys);
      SortedTail(b, keys);
      EnumerationUnique(a[1..], b[1..], keys - {a[0]});
      assert a == [a[0]] + a[1..] && b == [b[0]] + b[1..];
    }
  }

  lemma SortedTail(a: seq<string>, keys: set<string>)
    requires Enumerates(a, keys) && a != []
    ensures Enumerates(a[1..], keys - {a[0]})
  {
    forall k ensures k in a[1..] <==> k in keys - {a[0]} {
      if k in a[1..] {
        var i :| 0 <= i < |a[1..]| && a[1..][i] == k;
        assert a[i + 1] == k && Less(a[0], a[i + 1]);
        LessTotal(a[0], a[0]);
        assert k in a;
      }
      if k in keys - {a[0]} {
        assert k in a;
        var i :| 0 <= i < |a| && a[i] == k;
        assert a[1..][i - 1] == k;
      }
    }
  }

  /** Where a new key belongs in a sorted list. */
  function Position(ks: seq<string>, k: string): (n: nat)
    ensures n <= |ks|
    ensures forall i :: 0 <= i < n ==> Less(ks[i], k)
    ensures n < |ks| ==> !Less(ks[n], k)
  {
    if ks == [] || !Less(ks[0], k) then 0 else 1 + Position(ks[1..], k)
  }

  lemma InsertSorted(ks: seq<string>, k: string)
    requires StrictlySorted(ks) && k !in ks
    ensures var n := Position(ks, k); StrictlySorted(ks[..n] + [k] + ks[n..])
  {
    var n := Position(ks, k);
    var r := ks[..n] + [k] + ks[n..];
    forall i, j | 0 <= i < j < |r| ensures Less(r[i], r[j]) {
      if i == n {
        LessTotal(ks[n], k);
        assert ks[n] in ks && Less(k, ks[n]);
        if j > n + 1 { LessTransitive(k, ks[n], ks[j - 1]); }
      } else if i < n && j > n {
        assert Less(ks[i], ks[j - 1]);
      }
    }
  }

  /** `sort.Strings` on distinct keys. */
  method SortStrings(keys: seq<string>) returns (sorted: seq<string>)
    requires forall i, j :: 0 <= i < j < |keys| ==> keys[i] != keys[j]
    ensures StrictlySorted(sorted) && forall k :: k in sorted <==> k in keys
  {
    sorted := [];
    for i := 0 to |keys|
      invariant StrictlySorted(sorted)
      invariant forall k :: k in sorted <==> k in keys[..i]
    {
      var k := keys[i];
      assert k !in keys[..i];
      var n := Position(sorted, k);
      InsertSorted(sorted, k);
      assert sorted == sorted[..n] + sorted[n..];
      sorted := sorted[..n] + [k] + sorted[n..];
      assert keys[..i + 1] == keys[..i] + [k];
    }
    assert keys[..|keys|] == keys;
  }

  // ---------------------------------------------------------------- the builder and the headers

  class Builder {
    var text: string

    constructor ()
      ensures text == ""
    {
      text := "";
    }

    /** `SetString`: the clause, or nothing for a nil value. */
    method SetString(key: string, value: Option<string>)
      modifies this
      ensures text == old(text) + if value.Some? then Clause(key, value.value) else ""
    {
      if value.Some? {
        text := text + (" " + key + " = '" + EscapeString(value.value) + "'");
      }
    }
  }

  function Clause(key: string, value: string): (s: string) {
    " " + key + " = '" + EscapeString(value) + "'"
  }

  const HEADER := "WEBHOOK_HEADER_"

  /** The clauses of the headers `ks`, in that order. */
  function Clauses(ks: seq<string>, headers: map<string, string>): (s: string)
    requires forall k :: k in ks ==> k in headers
  {
    if ks == [] then "" else Clause(HEADER + ks[0], headers[ks[0]]) + Clauses(ks[1..], headers)
  }

  lemma {:induction false} ClausesSnoc(ks: seq<string>, k: string, headers: map<string, string>)
    requires forall x :: x in ks + [k] ==> x in headers
    ensures Clauses(ks + [k], headers) == Clauses(ks, headers) + Clause(HEADER + k, headers[k])
  {
    if ks == [] {
      assert [k][1..] == [];
      assert ks + [k] == [k];
    } else {
      assert (ks + [k])[1..] == ks[1..] + [k] && (ks + [k])[0] == ks[0];
      ClausesSnoc(ks[1..], k, headers);
      var c := Clause(HEADER + ks[0], headers[ks[0]]);
      assert c + (Clauses(ks[1..], headers) + Clause(HEADER + k, headers[k]))
          == (c + Clauses(ks[1..], headers)) + Clause(HEADER + k, headers[k]);
    }
  }

  lemma ClausesNext(keys: seq<string>, i: nat, headers: map<string, string>)
    requires i < |keys| && forall k :: k in keys ==> k in headers
    ensures forall t: string {:trigger t + Clauses(keys[..i], headers)} ::
            t + Clauses(keys[..i], headers) + Clause(HEADER + keys[i], headers[keys[i]])
            == t + Clauses(keys[..i + 1], headers)
  {
    assert keys[..i + 1] == keys[..i] + [keys[i]];
    ClausesSnoc(keys[..i], keys[i], headers);
    forall t: string
      ensures t + Clauses(keys[..i], headers) + Clause(HEADER + keys[i], headers[keys[i]])
           == t + Clauses(keys[..i + 1], headers)
    {
    }
  }

  /** The keys of a map, in whatever order it is visited. */
  method CollectKeys(headers: map<string, string>) returns (keys: seq<string>)
    ensures forall i, j :: 0 <= i < j < |keys| ==> keys[i] != keys[j]
    ensures forall k :: k in keys <==> k in headers
  {
    keys := [];
    var left := headers.Keys;
    while left != {}
      invariant left <= headers.Keys
      invariant forall i, j :: 0 <= i < j < |keys| ==> keys[i] != keys[j]
      invariant forall k :: k in keys <==> k in headers && k !in left
      decreases left
    {
      var k :| k in left;
      keys := keys + [k];
      left := left - {k};
    }
  }

  /** `setWebhookHeaders`: whatever order the map is visited in, the builder receives one clause
      per header in the one increasing order of the keys. */
  method SetWebhookHeaders(b: Builder, headers: map<string, string>) returns (ghost order: seq<string>)
    modifies b
    ensures Enumerates(order, headers.Keys)
    ensures b.text == old(b.text) + Clauses(order, headers)
  {
    order := [];
    if |headers| == 0 {
      return;
    }
    var keys := CollectKeys(headers);
    keys := SortStrings(keys);
    order := keys;
    WriteClauses(b, keys, headers);
  }

  method WriteClauses(b: Builder, keys: seq<string>, headers: map<string, string>)
    requires forall k :: k in keys ==> k in headers
    modifies b
    ensures b.text == old(b.text) + Clauses(keys, headers)
  {
    for i := 0 to |keys|
      invariant b.text == old(b.text) + Clauses(keys[..i], headers)
    {
      var k := keys[i];
      ClausesNext(keys, i, headers);
      b.SetString(HEADER + k, Some(headers[k]));
    }
    assert keys[..|keys|] == keys;
  }

  // ---------------------------------------------------------------- reading the headers back

  /** Which characters make up an unquoted parameter name.  The results hold for every choice that
      keeps blanks, equals signs and quotes out and the header prefix in. */
  ghost predicate Lexical(word: char -> bool) {
    !word(' ') && !word('=') && !word('\'') && forall c :: c in HEADER ==> word(c)
  }

  ghost predicate AllWord(word: char -> bool, s: string) {
    forall c :: c in s ==> word(c)
  }

  /** How many characters satisfying `p` a text begins with. */
  function Leading(p: char -> bool, s: string): (n: nat)
    ensures n <= |s| && (forall i :: 0 <= i < n ==> p(s[i])) && (n < |s| ==> !p(s[n]))
  {
    if s == "" || !p(s[0]) then 0 else 1 + Leading(p, s[1..])
  }

  function SkipBlanks(s: string): (r: string)
    ensures |r| <= |s|
  {
    s[Leading(c => c == ' ', s)..]
  }

  /** What follows the name of a clause: an equals sign and a literal, as the value and the rest. */
  function ReadAssigned(s: string): (r: Option<(string, string)>)
    ensures r.Some? ==> |r.value.1| < |s|
  {
    var eq := SkipBlanks(s);
    if eq == "" || eq[0] != '=' then None
    else
      var lit := SkipBlanks(eq[1..]);
      if lit == "" || lit[0] != '\'' then None
      else
        LiteralRest(lit[1..]);
        ReadLiteral(lit[1..])
  }

  /** The headers a sequence of clauses sets, with their values, up to the first text that is no
      header clause: a name of word characters, an equals sign, a literal. */
  function ReadClauses(word: char -> bool, s: string): (r: seq<(string, string)>)
    decreases |s|
  {
    var text := SkipBlanks(s);
    var n := Leading(word, text);
    if !(HEADER <= text[..n]) then []
    else
      var got := ReadAssigned(text[n..]);
      if got.None? then []
      else [(text[|HEADER|..n], got.value.0)] + ReadClauses(word, got.value.1)
  }

  function Pairs(ks: seq<string>, headers: map<string, string>): (r: seq<(string, string)>)
    requires forall k :: k in ks ==> k in headers
  {
    if ks == [] then [] else [(ks[0], StripNul(headers[ks[0]]))] + Pairs(ks[1..], headers)
  }

  lemma {:induction false} LeadingOf(p: char -> bool, a: string, b: string)
    requires AllWord(p, a) && (b == "" || !p(b[0]))
    ensures Leading(p, a + b) == |a|
  {
    if a == "" {
      assert a + b == b;
    } else {
      assert (a + b)[1..] == a[1..] + b;
      LeadingOf(p, a[1..], b);
    }
  }

  lemma SkipOne(s: string)
    requires s != "" && s[0] != ' '
    ensures SkipBlanks(" " + s) == s && SkipBlanks(s) == s
  {
    LeadingOf(c => c == ' ', " ", s);
    LeadingOf(c => c == ' ', "", s);
    assert "" + s == s && (" " + s)[1..] == s;
  }

  lemma AssignedReadBack(value: string, rest: string)
    requires rest == "" || rest[0] != '\''
    ensures ReadAssigned(" = '" + EscapeString(value) + "'" + rest) == Some((StripNul(value), rest))
  {
    var tail := EscapeString(value) + "'" + rest;
    var lit := "'" + tail;
    var eq := "= " + lit;
    assert " = '" + EscapeString(value) + "'" + rest == " " + eq;
    SkipOne(eq);
    assert eq[1..] == " " + lit && lit[1..] == tail;
    SkipOne(lit);
    LiteralReadBack(value, rest);
  }

  lemma ClauseText(key: string, value: string, rest: string)
    ensures Clause(HEADER + key, value) + rest
         == " " + ((HEADER + key) + (" = '" + EscapeString(value) + "'" + rest))
  {
  }

  /** Where a word and what follows it are told apart. */
  lemma WordAndTail(word: char -> bool, key: string, tail: string)
    requires Lexical(word) && AllWord(word, key) && tail != "" && tail[0] == ' '
    ensures var text := (HEADER + key) + tail;
            var n := |HEADER| + |key|;
            && SkipBlanks(" " + text) == text && Leading(word, text) == n
            && text[..n] == HEADER + key && text[n..] == tail && text[|HEADER|..n] == key
  {
    var text := (HEADER + key) + tail;
    assert text[0] == HEADER[0];
    SkipOne(text);
    LeadingOf(word, HEADER + key, tail);
  }

  lemma ReadOne(word: char -> bool, key: string, tail: string)
    requires Lexical(word) && AllWord(word, key) && tail != "" && tail[0] == ' ' && ReadAssigned(tail).Some?
    ensures var got := ReadAssigned(tail).value;
            ReadClauses(word, " " + ((HEADER + key) + tail)) == [(key, got.0)] + ReadClauses(word, got.1)
  {
    WordAndTail(word, key, tail);
    assert HEADER <= HEADER + key;
  }

  /** A header clause whose key is a word is read back with its value. */
  lemma ClauseReadBack(word: char -> bool, key: string, value: string, rest: string)
    requires Lexical(word) && AllWord(word, key) && (rest == "" || rest[0] != '\'')
    ensures ReadClauses(word, Clause(HEADER + key, value) + rest)
         == [(key, StripNul(value))] + ReadClauses(word, rest)
  {
    ClauseText(key, value, rest);
    AssignedReadBack(value, rest);
    ReadOne(word, key, " = '" + EscapeString(value) + "'" + rest);
  }

  /** A key with another character in it is not among the names read. */
  lemma OddKeyLost(word: char -> bool, key: string, value: string, s: string, more: seq<(string, string)>)
    requires !AllWord(word, key)
    ensures ReadClauses(word, s) != [(key, value)] + more
  {
    var text := SkipBlanks(s);
    var n := Leading(word, text);
    if HEADER <= text[..n] {
      var read := text[|HEADER|..n];
      assert forall c :: c in read ==> c in text[..n];
      assert AllWord(word, read);
      assert ReadClauses(word, s) != [] ==> ReadClauses(word, s)[0].0 == read;
      assert ([(key, value)] + more)[0] == (key, value);
    }
  }

  /** Reading the clauses gives back every header with its own value (NUL bytes dropped), for all
      values, if and only if every key is made of word characters: values are escaped on the way
      into the SQL text, keys are not, so any other key changes the clauses around it.  Names are
      compared as written here; what case does is `HeadersEffectiveIff`. */
  lemma {:induction false} HeadersReadBackIff(word: char -> bool, ks: seq<string>, headers: map<string, string>)
    requires Lexical(word) && forall k :: k in ks ==> k in headers
    ensures ReadClauses(word, Clauses(ks, headers)) == Pairs(ks, headers)
       <==> forall k :: k in ks ==> AllWord(word, k)
    decreases ks
  {
    if ks == [] {
      NothingRead(word, Clauses(ks, headers));
    } else {
      assert ks[0] in ks;
      var rest := Clauses(ks[1..], headers);
      assert rest == "" || rest[0] == ' ';
      if !AllWord(word, ks[0]) {
        OddKeyLost(word, ks[0], StripNul(headers[ks[0]]), Clauses(ks, headers), Pairs(ks[1..], headers));
      } else {
        ClauseReadBack(word, ks[0], headers[ks[0]], rest);
        HeadersReadBackIff(word, ks[1..], headers);
        SameTail((ks[0], StripNul(headers[ks[0]])), ReadClauses(word, rest), Pairs(ks[1..], headers));
        assert forall k :: k in ks <==> k == ks[0] || k in ks[1..];
      }
    }
  }

  lemma NothingRead(word: char -> bool, s: string)
    requires |s| < |HEADER|
    ensures ReadClauses(word, s) == []
  {
    var text := SkipBlanks(s);
    assert |text[..Leading(word, text)]| <= |text| < |HEADER|;
  }

  lemma SameTail(p: (string, string), a: seq<(string, string)>, b: seq<(string, string)>)
    ensures [p] + a == [p] + b <==> a == b
  {
    assert ([p] + a)[1..] == a && ([p] + b)[1..] == b;
  }

  /** A key with a blank and an equals sign, which nothing rules out: the name is read as "A". */
  lemma SplitKeyLost(word: char -> bool, headers: map<string, string>)
    requires Lexical(word) && "A = 5 B" in headers
    ensures ReadClauses(word, Clauses(["A = 5 B"], headers)) != Pairs(["A = 5 B"], headers)
  {
    var k := "A = 5 B";
    assert k[1] == ' ' && ' ' in k && k in [k];
    HeadersReadBackIff(word, [k], headers);
  }

  // ---------------------------------------------------------------- what the clauses set

  /** Unquoted parameter names are read without regard to case, and a later clause overrides an
      earlier one. */
  function Settings(pairs: seq<(string, string)>): (m: map<string, string>) {
    if pairs == [] then map[] else map[Upper(pairs[0].0) := pairs[0].1] + Settings(pairs[1..])
  }

  /** Every clause takes effect. */
  ghost predicate AllEffective(pairs: seq<(string, string)>) {
    forall i :: 0 <= i < |pairs| ==>
      Upper(pairs[i].0) in Settings(pairs) && Settings(pairs)[Upper(pairs[i].0)] == pairs[i].1
  }

  lemma {:induction false} SettingsKeys(pairs: seq<(string, string)>, i: nat)
    requires i < |pairs|
    ensures Upper(pairs[i].0) in Settings(pairs)
  {
    if i > 0 {
      SettingsKeys(pairs[1..], i - 1);
    }
  }

  lemma {:induction false} SettingsFrom(pairs: seq<(string, string)>, u: string) returns (j: nat)
    requires u in Settings(pairs)
    ensures j < |pairs| && Upper(pairs[j].0) == u && Settings(pairs)[u] == pairs[j].1
  {
    if u in Settings(pairs[1..]) {
      var k := SettingsFrom(pairs[1..], u);
      j := k + 1;
    } else {
      j := 0;
    }
  }

  /** They all do if and only if names that are equal up to case come with equal values. */
  lemma EffectiveIff(pairs: seq<(string, string)>)
    ensures AllEffective(pairs) <==>
            forall i, j :: 0 <= i < j < |pairs| && Upper(pairs[i].0) == Upper(pairs[j].0) ==> pairs[i].1 == pairs[j].1
  {
    if forall i, j :: 0 <= i < j < |pairs| && Upper(pairs[i].0) == Upper(pairs[j].0) ==> pairs[i].1 == pairs[j].1 {
      forall i | 0 <= i < |pairs|
        ensures Upper(pairs[i].0) in Settings(pairs) && Settings(pairs)[Upper(pairs[i].0)] == pairs[i].1
      {
        SettingsKeys(pairs, i);
        var j := SettingsFrom(pairs, Upper(pairs[i].0));
      }
    }
  }

  /** So headers whose names are words all reach the parameters they name, each with its own value,
      if and only if no two that differ in case only have different values. */
  lemma HeadersEffectiveIff(word: char -> bool, ks: seq<string>, headers: map<string, string>)
    requires Lexical(word) && forall k :: k in ks ==> k in headers && AllWord(word, k)
    ensures AllEffective(ReadClauses(word, Clauses(ks, headers))) <==>
            forall i, j :: 0 <= i < j < |ks| && Upper(ks[i]) == Upper(ks[j]) ==>
              StripNul(headers[ks[i]]) == StripNul(headers[ks[j]])
  {
    HeadersReadBackIff(word, ks, headers);
    PairsAt(ks, headers);
    var pairs := Pairs(ks, headers);
    EffectiveIff(pairs);
    if AllEffective(pairs) {
      forall i, j | 0 <= i < j < |ks| && Upper(ks[i]) == Upper(ks[j])
        ensures StripNul(headers[ks[i]]) == StripNul(headers[ks[j]])
      {
        assert pairs[i].1 == pairs[j].1;
      }
    }
  }

  lemma {:induction false} PairsAt(ks: seq<string>, headers: map<string, string>)
    requires forall k :: k in ks ==> k in headers
    ensures |Pairs(ks, headers)| == |ks|
    ensures forall i :: 0 <= i < |ks| ==> Pairs(ks, headers)[i] == (ks[i], StripNul(headers[ks[i]]))
  {
    if ks != [] {
      PairsAt(ks[1..], headers);
    }
  }
}
