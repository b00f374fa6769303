/** Splitting multi-statement SQL (`splitStatements` in
    internal/clients/snowflake/sqlstatement/client.go), against Snowflake's own reading of string
    literals. */
module SqlSplit {
  import opened Strings
  import opened SqlText

  // ---------------------------------------------------------------- two readings of a text

  datatype Mode = Outside | Inside | Escaped

  /** One character further.  With `esc` a backslash inside a literal escapes the next character,
      as Snowflake has it; without, it is a character like any other, as the splitter has it.  A
      doubled quote leaves the literal and enters it again. */
  function Next(esc: bool, m: Mode, c: char): (r: Mode) {
    match m
    case Outside => if c == '\'' then Inside else Outside
    case Inside => if c == '\'' then Outside else if esc && c == '\\' then Escaped else Inside
    case Escaped => Inside
  }

  function Scan(esc: bool, m: Mode, s: string): (r: Mode)
    decreases s
  {
    if s == "" then m else Scan(esc, Next(esc, m, s[0]), s[1..])
  }

  /** The statement separators of a text: semicolons outside literals. */
  predicate SeparatorAt(esc: bool, m: Mode, s: string, i: int) {
    0 <= i < |s| && s[i] == ';' && Scan(esc, m, s[..i]).Outside?
  }

  /** Text put in front of the first part. */
  function Prepend(p: string, parts: seq<string>): (r: seq<string>)
    requires |parts| >= 1
    ensures |r| == |parts| && r[0] == p + parts[0] && r[1..] == parts[1..]
  {
    [p + parts[0]] + parts[1..]
  }

  /** The text cut at its separators. */
  function Cut(esc: bool, m: Mode, s: string): (parts: seq<string>)
    ensures |parts| >= 1
    decreases s
  {
    if s == "" then [""]
    else if s[0] == ';' && m.Outside? then [""] + Cut(esc, m, s[1..])
    else Prepend([s[0]], Cut(esc, Next(esc, m, s[0]), s[1..]))
  }

  /** Trimmed, without the blank ones. */
  function Statements(parts: seq<string>): (stmts: seq<string>) {
    if parts == [] then [] else Kept(parts[0]) + Statements(parts[1..])
  }

  function Kept(part: string): (stmts: seq<string>) {
    if Trim(part) != "" then [Trim(part)] else []
  }

  // ---------------------------------------------------------------- Snowflake's literals

  /** The same cutting said with `ReadLiteral`: a semicolon separates unless it belongs to a literal,
      and an unterminated literal takes the rest of the text. */
  function LexCut(s: string): (parts: seq<string>)
    ensures |parts| >= 1
    decreases |s|
  {
    if s == "" then [""]
    else if s[0] == ';' then [""] + LexCut(s[1..])
    else if s[0] == '\'' then
      LiteralRest(s[1..]);
      var lit := ReadLiteral(s[1..]);
      if lit.None? then [s] else Prepend(s[..|s| - |lit.value.1|], LexCut(lit.value.1))
    else Prepend([s[0]], LexCut(s[1..]))
  }

  lemma PrependTwice(a: string, b: string, parts: seq<string>)
    requires |parts| >= 1
    ensures Prepend(a, Prepend(b, parts)) == Prepend(a + b, parts)
  {
    assert a + (b + parts[0]) == a + b + parts[0];
  }

  /** Two characters none of which separates. */
  lemma CutTwo(m: Mode, s: string)
    requires |s| >= 2 && !(s[0] == ';' && m.Outside?) && !(s[1] == ';' && Next(true, m, s[0]).Outside?)
    ensures Cut(true, m, s) == Prepend(s[..2], Cut(true, Next(true, Next(true, m, s[0]), s[1]), s[2..]))
  {
    assert s[1..][1..] == s[2..] && [s[0]] + [s[1]] == s[..2];
    PrependTwice([s[0]], [s[1]], Cut(true, Next(true, Next(true, m, s[0]), s[1]), s[2..]));
  }

  /** The parts of a text that begins with a literal, or the rest of one, and goes on with `rest`;
      an unterminated literal takes everything. */
  function Taken(s: string, rest: Option<string>): (parts: seq<string>)
    requires rest.Some? ==> |rest.value| <= |s|
    ensures |parts| >= 1
  {
    if rest.None? then [s] else Prepend(s[..|s| - |rest.value|], Cut(true, Outside, rest.value))
  }

  function RestOf(s: string): (rest: Option<string>)
    ensures rest.Some? ==> |rest.value| <= |s|
  {
    LiteralRest(s);
    var lit := ReadLiteral(s);
    if lit.None? then None else Some(lit.value.1)
  }

  function AfterLiteral(s: string): (parts: seq<string>)
    ensures |parts| >= 1
  {
    Taken(s, RestOf(s))
  }

  /** `n` more characters in front of a literal that goes on. */
  lemma TakenLonger(s: string, n: nat, rest: Option<string>)
    requires n <= |s| && (rest.Some? ==> |rest.value| <= |s| - n)
    ensures Prepend(s[..n], Taken(s[n..], rest)) == Taken(s, rest)
  {
    if rest.None? {
      assert s[..n] + s[n..] == s;
    } else {
      var k := |s[n..]| - |rest.value|;
      assert s[..n] + s[n..][..k] == s[..|s| - |rest.value|];
      PrependTwice(s[..n], s[n..][..k], Cut(true, Outside, rest.value));
    }
  }

  lemma LiteralEnds(s: string)
    requires s != "" && s[0] == '\'' && !(|s| > 1 && s[1] == '\'')
    ensures Cut(true, Inside, s) == AfterLiteral(s)
  {
    assert ReadLiteral(s) == Some(("", s[1..]));
    assert s[..1] == [s[0]];
  }

  lemma LoneBackslash()
    ensures Cut(true, Inside, "\\") == AfterLiteral("\\")
  {
    var s := "\\";
    assert s[1..] == "" && s + "" == s;
    assert Cut(true, Inside, s) == Prepend(s, Cut(true, Escaped, ""));
  }

  lemma {:induction false} CutLiteral(s: string)
    ensures Cut(true, Inside, s) == AfterLiteral(s)
    decreases |s|
  {
    if s == "" {
    } else if s == "\\" {
      LoneBackslash();
    } else if s[0] == '\\' || (s[0] == '\'' && |s| > 1 && s[1] == '\'') {
      CutLiteral(s[2..]);
      CutTwo(Inside, s);
      assert RestOf(s) == RestOf(s[2..]);
      TakenLonger(s, 2, RestOf(s[2..]));
    } else if s[0] == '\'' {
      LiteralEnds(s);
    } else {
      CutLiteral(s[1..]);
      assert RestOf(s) == RestOf(s[1..]);
      TakenLonger(s, 1, RestOf(s[1..]));
      assert s[..1] == [s[0]];
    }
  }

  /** The reading with escapes is Snowflake's: it cuts exactly where the literal reader does. */
  lemma {:induction false} LexIsCut(s: string)
    ensures LexCut(s) == Cut(true, Outside, s)
    decreases |s|
  {
    if s == "" {
    } else if s[0] == '\'' {
      CutLiteral(s[1..]);
      LiteralRest(s[1..]);
      var lit := ReadLiteral(s[1..]);
      if lit.None? {
        assert [s[0]] + s[1..] == s;
      } else {
        LexIsCut(lit.value.1);
        var k := |s| - 1 - |lit.value.1|;
        assert [s[0]] + s[1..][..k] == s[..k + 1];
        PrependTwice([s[0]], s[1..][..k], Cut(true, Outside, lit.value.1));
      }
    } else {
      LexIsCut(s[1..]);
    }
  }

  // ---------------------------------------------------------------- the loop

  /** The mode the loop's flag stands for. */
  function ModeOf(inQuote: bool): (m: Mode) {
    if inQuote then Inside else Outside
  }

  /** What the loop still has to deliver: the statements found, and those of the rest of the
      text with `current` in front of it. */
  ghost function Outcome(stmts: seq<string>, current: string, q: bool, s: string): (r: seq<string>) {
    stmts + Statements(Prepend(current, Cut(false, ModeOf(q), s)))
  }

  lemma PrependNothing(parts: seq<string>)
    requires |parts| >= 1
    ensures Prepend("", parts) == parts
  {
    assert "" + parts[0] == parts[0];
    assert [parts[0]] + parts[1..] == parts;
  }

  lemma OutcomeFresh(stmts: seq<string>, q: bool, s: string)
    ensures Outcome(stmts, "", q, s) == stmts + Statements(Cut(false, ModeOf(q), s))
  {
    PrependNothing(Cut(false, ModeOf(q), s));
  }

  /** A character that is no separator moves from the text to `current`. */
  lemma OutcomeChar(stmts: seq<string>, current: string, q: bool, s: string)
    requires s != "" && !(s[0] == ';' && !q)
    ensures Outcome(stmts, current, q, s)
         == Outcome(stmts, current + [s[0]], if s[0] == '\'' then !q else q, s[1..])
  {
    PrependTwice(current, [s[0]], Cut(false, Next(false, ModeOf(q), s[0]), s[1..]));
  }

  /** What `current` contributes at a separator or at the end. */
  function Flush(stmts: seq<string>, current: string): (r: seq<string>) {
    if Trim(current) != "" then stmts + [Trim(current)] else stmts
  }

  lemma FlushThen(stmts: seq<string>, current: string, rest: seq<string>)
    ensures stmts + Statements([current] + rest) == Flush(stmts, current) + Statements(rest)
  {
    assert ([current] + rest)[1..] == rest;
  }

  lemma OutcomeCut(stmts: seq<string>, current: string, s: string)
    requires s != "" && s[0] == ';'
    ensures Outcome(stmts, current, false, s) == Outcome(Flush(stmts, current), "", false, s[1..])
  {
    var rest := Cut(false, Outside, s[1..]);
    var parts := Cut(false, Outside, s);
    assert parts[0] == "" && parts[1..] == rest;
    assert current + parts[0] == current;
    assert Prepend(current, parts) == [current] + rest;
    FlushThen(stmts, current, rest);
    OutcomeFresh(Flush(stmts, current), false, s[1..]);
  }

  lemma OutcomeEnd(stmts: seq<string>, current: string, q: bool)
    ensures Outcome(stmts, current, q, "") == Flush(stmts, current)
  {
    assert Prepend(current, [""]) == [current] + [] by {
      assert current + "" == current;
    }
    FlushThen(stmts, current, []);
  }

  /** What the loop makes of the rest of the text, character by character. */
  ghost function Rest(stmts: seq<string>, current: string, q: bool, s: string): (r: seq<string>)
    decreases s
  {
    if s == "" then Flush(stmts, current)
    else if s[0] == ';' && !q then Rest(Flush(stmts, current), "", q, s[1..])
    else Rest(stmts, current + [s[0]], if s[0] == '\'' then !q else q, s[1..])
  }

  lemma {:induction false} RestDelivers(stmts: seq<string>, current: string, q: bool, s: string)
    ensures Rest(stmts, current, q, s) == Outcome(stmts, current, q, s)
    decreases s
  {
    if s == "" {
      OutcomeEnd(stmts, current, q);
    } else if s[0] == ';' && !q {
      OutcomeCut(stmts, current, s);
      RestDelivers(Flush(stmts, current), "", q, s[1..]);
    } else {
      OutcomeChar(stmts, current, q, s);
      RestDelivers(stmts, current + [s[0]], if s[0] == '\'' then !q else q, s[1..]);
    }
  }

  /** The byte loop, which skips the second of two quotes inside a literal, cuts at the separators
      of the reading without escapes.  It delivers Snowflake's statements if and only if no
      semicolon comes after an odd number of escaped quotes. */
  method SplitStatements(sql: string) returns (stmts: seq<string>)
    ensures stmts == Statements(Cut(false, Outside, sql))
    ensures stmts == Statements(LexCut(sql)) <==> Straight(sql)
  {
    stmts := [];
    var current := "";
    var inQuote := false;
    var i := 0;
    assert sql[0..] == sql;
    while i < |sql|
      invariant 0 <= i <= |sql|
      invariant Rest(stmts, current, inQuote, sql[i..]) == Rest([], "", false, sql)
    {
      var ch := sql[i];
      assert sql[i..][0] == ch && sql[i..][1..] == sql[i + 1..];
      if ch == '\'' && !inQuote {
        inQuote := true;
        current := current + [ch];
      } else if ch == '\'' && inQuote {
        if i + 1 < |sql| && sql[i + 1] == '\'' {
          assert sql[i + 1..][1..] == sql[i + 2..];
          current := current + [ch];
          current := current + [ch];
          i := i + 1;
        } else {
          inQuote := false;
          current := current + [ch];
        }
      } else if ch == ';' && !inQuote {
        var stmt := Trim(current);
        if stmt != "" {
          stmts := stmts + [stmt];
        }
        current := "";
      } else {
        current := current + [ch];
      }
      i := i + 1;
    }
    assert sql[i..] == "";
    var stmt := Trim(current);
    if stmt != "" {
      stmts := stmts + [stmt];
    }
    RestDelivers([], "", false, sql);
    OutcomeFresh([], false, sql);
    SplitCorrectIff(sql);
  }

  // ---------------------------------------------------------------- when the two readings agree

  /** How many quotes of `s` are escaped, in Snowflake's reading. */
  function EscapedQuotes(m: Mode, s: string): (n: nat)
    decreases s
  {
    if s == "" then 0
    else (if m.Escaped? && s[0] == '\'' then 1 else 0) + EscapedQuotes(Next(true, m, s[0]), s[1..])
  }

  /** A semicolon after an odd number of escaped quotes, `n` having gone before. */
  predicate BentAt(m: Mode, n: nat, s: string, i: int) {
    0 <= i < |s| && s[i] == ';' && (n + EscapedQuotes(m, s[..i])) % 2 == 1
  }

  ghost predicate Bent(m: Mode, n: nat, s: string) {
    exists i :: BentAt(m, n, s, i)
  }

  /** No semicolon comes after an odd number of escaped quotes. */
  ghost predicate Straight(s: string) {
    !Bent(Outside, 0, s)
  }

  /** What one character adds to the count. */
  function Counted(m: Mode, n: nat, c: char): (k: nat) {
    if m.Escaped? && c == '\'' then n + 1 else n
  }

  lemma BentCons(m: Mode, n: nat, s: string)
    requires s != ""
    ensures Bent(m, n, s) <==>
            (s[0] == ';' && n % 2 == 1) || Bent(Next(true, m, s[0]), Counted(m, n, s[0]), s[1..])
  {
    var m', n' := Next(true, m, s[0]), Counted(m, n, s[0]);
    assert s[..0] == "";
    if s[0] == ';' && n % 2 == 1 {
      assert BentAt(m, n, s, 0);
    }
    forall i | 0 <= i < |s[1..]| ensures BentAt(m', n', s[1..], i) <==> BentAt(m, n, s, i + 1) {
      assert s[..i + 1][1..] == s[1..][..i];
    }
    if Bent(m', n', s[1..]) {
      var i :| BentAt(m', n', s[1..], i);
      assert BentAt(m, n, s, i + 1);
    }
    if i :| BentAt(m, n, s, i) && i > 0 {
      assert BentAt(m', n', s[1..], i - 1);
    }
  }

  /** The splitter in mode `p` and the reader in mode `r`: they agree about being in a literal
      exactly after an even number of escaped quotes. */
  predicate InStep(p: Mode, r: Mode, n: nat) {
    !p.Escaped? && (p.Outside? == r.Outside? <==> n % 2 == 0)
  }

  lemma InStepNext(p: Mode, r: Mode, n: nat, c: char)
    requires InStep(p, r, n)
    ensures InStep(Next(false, p, c), Next(true, r, c), Counted(r, n, c))
  {
  }

  lemma PrependSame(p: string, a: seq<string>, b: seq<string>)
    requires |a| >= 1 && |b| >= 1
    ensures Prepend(p, a) == Prepend(p, b) <==> a == b
  {
    if Prepend(p, a) == Prepend(p, b) {
      assert a[0] == (p + a[0])[|p|..] == (p + b[0])[|p|..] == b[0];
      assert a == [a[0]] + a[1..] && b == [b[0]] + b[1..];
    }
  }

  /** The parts are the same if and only if no semicolon is bent. */
  lemma {:induction false} CutsAgreeIff(p: Mode, r: Mode, n: nat, s: string)
    requires InStep(p, r, n)
    ensures Cut(false, p, s) == Cut(true, r, s) <==> !Bent(r, n, s)
    decreases s
  {
    if s != "" {
      BentCons(r, n, s);
      InStepNext(p, r, n, s[0]);
      var p', r', n' := Next(false, p, s[0]), Next(true, r, s[0]), Counted(r, n, s[0]);
      CutsAgreeIff(p', r', n', s[1..]);
      var a, b := Cut(false, p', s[1..]), Cut(true, r', s[1..]);
      if s[0] == ';' && p.Outside? && r.Outside? {
        assert ([""] + a)[1..] == a && ([""] + b)[1..] == b;
      } else if s[0] == ';' && (p.Outside? || r.Outside?) {
        assert Cut(false, p, s)[0] != Cut(true, r, s)[0];
      } else {
        PrependSame([s[0]], a, b);
      }
    }
  }

  predicate NonBlank(s: string) {
    exists i :: 0 <= i < |s| && !IsSpace(s[i])
  }

  /** Text that goes on behind a semicolon trims to something longer. */
  lemma LongerTrim(cur: string, more: string)
    requires NonBlank(cur)
    ensures Trim(cur) != "" && |Trim(cur)| < |Trim(cur + ";" + more)|
  {
    var s := cur + ";" + more;
    var lo, hi := TrimIsWindow(cur);
    var lo', hi' := TrimIsWindow(s);
    var k :| 0 <= k < |cur| && !IsSpace(cur[k]);
    assert lo <= k < hi;
    assert s[lo] == cur[lo] && s[|cur|] == ';';
    assert lo' <= lo by {
      assert !IsSpace(s[lo]);
    }
    assert |cur| < hi' by {
      assert !IsSpace(s[|cur|]);
    }
  }

  /** At the first bent semicolon one reading ends the current statement and the other goes on. */
  lemma BentDiffers(cur: string, p: Mode, r: Mode, s: string)
    requires s != "" && s[0] == ';' && p.Outside? != r.Outside? && NonBlank(cur)
    ensures Statements(Prepend(cur, Cut(false, p, s))) != Statements(Prepend(cur, Cut(true, r, s)))
  {
    var a, b := Prepend(cur, Cut(false, p, s)), Prepend(cur, Cut(true, r, s));
    var ends, goes := if p.Outside? then a else b, if p.Outside? then b else a;
    assert cur + "" == cur && ends[0] == cur;
    var esc, m := p.Outside?, if p.Outside? then r else p;
    var more := Cut(esc, Next(esc, m, ';'), s[1..])[0];
    assert goes[0] == cur + ([s[0]] + more) == cur + ";" + more;
    LongerTrim(cur, more);
    assert Statements(ends)[0] == Trim(cur) && Statements(goes)[0] == Trim(goes[0]);
  }

  lemma SameFirst(k: seq<string>, a: seq<string>, b: seq<string>)
    ensures k + a == k + b <==> a == b
  {
    assert (k + a)[|k|..] == a && (k + b)[|k|..] == b;
  }

  /** Nor can trimming and dropping blank parts hide the difference. */
  lemma {:induction false} StatementsDiffer(cur: string, p: Mode, r: Mode, n: nat, s: string)
    requires InStep(p, r, n) && Bent(r, n, s) && (n % 2 == 1 ==> NonBlank(cur))
    ensures Statements(Prepend(cur, Cut(false, p, s))) != Statements(Prepend(cur, Cut(true, r, s)))
    decreases s
  {
    var c := s[0];
    BentCons(r, n, s);
    InStepNext(p, r, n, c);
    var p', r', n' := Next(false, p, c), Next(true, r, c), Counted(r, n, c);
    if c == ';' && n % 2 == 1 {
      BentDiffers(cur, p, r, s);
    } else if c == ';' && p.Outside? {
      StatementsDiffer("", p', r', n', s[1..]);
      CutOff(cur, false, s);
      CutOff(cur, true, s);
      SameFirst(Kept(cur), Statements(Cut(false, Outside, s[1..])), Statements(Cut(true, Outside, s[1..])));
    } else {
      assert n' % 2 == 1 ==> NonBlank(cur + [c]) by {
        if n % 2 == 1 {
          var i :| 0 <= i < |cur| && !IsSpace(cur[i]);
          assert (cur + [c])[i] == cur[i];
        } else {
          assert (cur + [c])[|cur|] == c;
        }
      }
      StatementsDiffer(cur + [c], p', r', n', s[1..]);
      PrependTwice(cur, [c], Cut(false, p', s[1..]));
      PrependTwice(cur, [c], Cut(true, r', s[1..]));
    }
  }

  lemma CutOff(cur: string, esc: bool, s: string)
    requires s != "" && s[0] == ';'
    ensures Statements(Prepend(cur, Cut(esc, Outside, s))) == Kept(cur) + Statements(Cut(esc, Outside, s[1..]))
    ensures Prepend("", Cut(esc, Outside, s[1..])) == Cut(esc, Outside, s[1..])
  {
    assert Cut(esc, Outside, s)[1..] == Cut(esc, Outside, s[1..]);
    assert cur + "" == cur;
    PrependNothing(Cut(esc, Outside, s[1..]));
  }

  /** The promise of the splitter, exactly: what it executes are Snowflake's statements if and only
      if the text is straight. */
  lemma SplitCorrectIff(s: string)
    ensures Statements(Cut(false, Outside, s)) == Statements(LexCut(s)) <==> Straight(s)
  {
    LexIsCut(s);
    CutsAgreeIff(Outside, Outside, 0, s);
    if Bent(Outside, 0, s) {
      StatementsDiffer("", Outside, Outside, 0, s);
      PrependNothing(Cut(false, Outside, s));
      PrependNothing(Cut(true, Outside, s));
    }
  }

  const ONE_LITERAL := "'\\';'"

  lemma OneLiteralTails()
    ensures var s := ONE_LITERAL;
            && s[1..] == "\\';'" && "\\';'"[1..] == "';'" && "';'"[1..] == ";'" && ";'"[1..] == "'" && "'"[1..] == ""
            && "\\';'"[2..] == ";'"
  {
  }

  lemma OneLiteralRead()
    ensures ReadLiteral(ONE_LITERAL[1..]) == Some(("';", "")) && LexCut(ONE_LITERAL) == [ONE_LITERAL]
  {
    OneLiteralTails();
    assert ReadLiteral("'") == Some(("", ""));
    assert ";" + "" == ";" && ['\''] + ";" == "';";
    assert ReadLiteral(";'") == Some((";", ""));
    var s := "\\';'";
    assert s[0] == '\\' && s[1] == '\'' && s[2..] == ";'";
    assert ReadLiteral(s) == Some(([s[1]] + ";", ""));
    assert ONE_LITERAL[..5] == ONE_LITERAL && ONE_LITERAL + "" == ONE_LITERAL;
    assert LexCut(ONE_LITERAL) == Prepend(ONE_LITERAL, [""]);
  }

  lemma OneLiteralCut()
    ensures Cut(false, Outside, ONE_LITERAL) == ["'\\'", "'"]
  {
    OneLiteralTails();
    assert "'" + "" == "'" && "\\" + "'" == "\\'" && "'" + "\\'" == "'\\'";
    assert Cut(false, Outside, "'") == Prepend("'", Cut(false, Inside, "")) == ["'"];
    assert Cut(false, Outside, ";'") == ["", "'"];
    assert Cut(false, Inside, "';'") == Prepend("'", ["", "'"]) == ["'", "'"];
    assert Cut(false, Inside, "\\';'") == Prepend("\\", ["'", "'"]) == ["\\'", "'"];
    assert Cut(false, Outside, ONE_LITERAL) == Prepend("'", ["\\'", "'"]);
  }

  /** A text that is not straight: a literal with an escaped quote and a semicolon is one statement
      for Snowflake, and the splitter cuts it in two. */
  lemma EscapedQuoteCuts()
    ensures LexCut(ONE_LITERAL) == [ONE_LITERAL] && Cut(false, Outside, ONE_LITERAL) == ["'\\'", "'"]
    ensures !Straight(ONE_LITERAL)
  {
    OneLiteralRead();
    OneLiteralCut();
    LexIsCut(ONE_LITERAL);
    CutsAgreeIff(Outside, Outside, 0, ONE_LITERAL);
    assert |[ONE_LITERAL]| != |["'\\'", "'"]|;
  }

  // ---------------------------------------------------------------- what escapes a quote

  function Backslashes(k: nat): (s: string) {
    if k == 0 then "" else Backslashes(k - 1) + "\\"
  }

  lemma {:induction false} ScanConcat(esc: bool, m: Mode, a: string, b: string)
    ensures Scan(esc, m, a + b) == Scan(esc, Scan(esc, m, a), b)
    decreases a
  {
    if a == "" {
      assert a + b == b;
    } else {
      assert (a + b)[1..] == a[1..] + b;
      ScanConcat(esc, Next(esc, m, a[0]), a[1..], b);
    }
  }

  /** The next character is escaped if and only if it is inside a literal and follows an odd run of
      backslashes there. */
  lemma {:induction false} EscapedIffOddRun(a: string, k: nat)
    requires a == "" || a[|a| - 1] != '\\'
    ensures Scan(true, Outside, a + Backslashes(k)).Escaped? <==> Scan(true, Outside, a).Inside? && k % 2 == 1
    ensures Scan(true, Outside, a + Backslashes(k)).Outside? <==> Scan(true, Outside, a).Outside?
    ensures !Scan(true, Outside, a).Escaped?
  {
    if k == 0 {
      assert a + "" == a;
      if a != "" {
        var b := a[..|a| - 1];
        assert a == b + [a[|a| - 1]];
        ScanConcat(true, Outside, b, [a[|a| - 1]]);
        assert [a[|a| - 1]][1..] == "";
      }
    } else {
      EscapedIffOddRun(a, k - 1);
      assert a + Backslashes(k) == (a + Backslashes(k - 1)) + "\\";
      var m := Scan(true, Outside, a + Backslashes(k - 1));
      ScanConcat(true, Outside, a + Backslashes(k - 1), "\\");
      assert "\\"[1..] == "";
      assert Scan(true, m, "\\") == Scan(true, Next(true, m, '\\'), "") == Next(true, m, '\\');
      assert m.Outside? || m.Inside? || m.Escaped?;
    }
  }

  // ---------------------------------------------------------------- what cutting means

  /** Cutting loses nothing: the parts joined by semicolons are the text. */
  lemma {:induction false} CutJoins(esc: bool, m: Mode, s: string)
    ensures Join(Cut(esc, m, s), ";") == s
    decreases s
  {
    if s != "" {
      assert s == [s[0]] + s[1..];
      if s[0] == ';' && m.Outside? {
        CutJoins(esc, m, s[1..]);
        assert ([""] + Cut(esc, m, s[1..]))[1..] == Cut(esc, m, s[1..]);
      } else {
        CutJoins(esc, Next(esc, m, s[0]), s[1..]);
        JoinCons(s[0], Cut(esc, Next(esc, m, s[0]), s[1..]), ";");
      }
    }
  }

  ghost predicate Separated(esc: bool, m: Mode, s: string) {
    exists i :: SeparatorAt(esc, m, s, i)
  }

  /** What a correct cutting looks like: no part holds a separator, and all but the last close
      their literals. */
  ghost predicate Pieces(esc: bool, m: Mode, parts: seq<string>)
    decreases parts
  {
    |parts| >= 1 && !Separated(esc, m, parts[0])
    && (|parts| > 1 ==> Scan(esc, m, parts[0]).Outside? && Pieces(esc, Outside, parts[1..]))
  }

  /** Separators of a text and of the text without its first character. */
  lemma SeparatedCons(esc: bool, m: Mode, s: string)
    requires s != ""
    ensures Separated(esc, m, s) <==> (s[0] == ';' && m.Outside?) || Separated(esc, Next(esc, m, s[0]), s[1..])
  {
    var m' := Next(esc, m, s[0]);
    assert s[..0] == "";
    if s[0] == ';' && m.Outside? {
      assert SeparatorAt(esc, m, s, 0);
    }
    forall i | 0 <= i < |s[1..]| ensures SeparatorAt(esc, m', s[1..], i) <==> SeparatorAt(esc, m, s, i + 1) {
      assert s[..i + 1][1..] == s[1..][..i];
    }
    if Separated(esc, m', s[1..]) {
      var i :| SeparatorAt(esc, m', s[1..], i);
      assert SeparatorAt(esc, m, s, i + 1);
    }
    if i :| SeparatorAt(esc, m, s, i) && i > 0 {
      assert SeparatorAt(esc, m', s[1..], i - 1);
    }
  }

  /** In either reading every text is cut into pieces... */
  lemma {:induction false} CutPieces(esc: bool, m: Mode, s: string)
    ensures Pieces(esc, m, Cut(esc, m, s))
    decreases s
  {
    if s != "" {
      SeparatedCons(esc, m, s);
      if s[0] == ';' && m.Outside? {
        CutPieces(esc, m, s[1..]);
        assert ([""] + Cut(esc, m, s[1..]))[1..] == Cut(esc, m, s[1..]);
      } else {
        var m' := Next(esc, m, s[0]);
        CutPieces(esc, m', s[1..]);
        var rest := Cut(esc, m', s[1..]);
        assert ([s[0]] + rest[0])[1..] == rest[0];
        SeparatedCons(esc, m, [s[0]] + rest[0]);
      }
    }
  }

  /** A piece followed by a separator is cut off whole. */
  lemma {:induction false} CutHead(esc: bool, m: Mode, p: string, rest: string)
    requires !Separated(esc, m, p)
    ensures Cut(esc, m, p) == [p]
    ensures Scan(esc, m, p).Outside? ==> Cut(esc, m, p + ";" + rest) == [p] + Cut(esc, Outside, rest)
    decreases p
  {
    var s := p + ";" + rest;
    if p == "" {
      assert s[1..] == rest;
    } else {
      SeparatedCons(esc, m, p);
      CutHead(esc, Next(esc, m, p[0]), p[1..], rest);
      assert s[1..] == p[1..] + ";" + rest;
      assert [p[0]] + p[1..] == p;
      assert ([p[1..]] + Cut(esc, Outside, rest))[1..] == Cut(esc, Outside, rest);
    }
  }

  /** ... and in no other way: pieces joined by semicolons are cut back into themselves. */
  lemma {:induction false} CutUnique(esc: bool, m: Mode, parts: seq<string>)
    requires Pieces(esc, m, parts)
    ensures Cut(esc, m, Join(parts, ";")) == parts
    decreases parts
  {
    if |parts| == 1 {
      CutHead(esc, m, parts[0], "");
    } else {
      CutUnique(esc, Outside, parts[1..]);
      CutHead(esc, m, parts[0], Join(parts[1..], ";"));
    }
  }

  /** Text that can stand as one statement: literals closed, no separator, nothing to trim. */
  ghost predicate Statement(esc: bool, p: string) {
    Whole(esc, p) && Trimmed(p) && p != ""
  }

  ghost predicate Whole(esc: bool, p: string) {
    Scan(esc, Outside, p).Outside? && !Separated(esc, Outside, p)
  }

  lemma {:induction false} StatementsKept(esc: bool, stmts: seq<string>)
    requires forall i :: 0 <= i < |stmts| ==> Statement(esc, stmts[i])
    ensures Statements(stmts) == stmts
    ensures stmts != [] ==> Pieces(esc, Outside, stmts)
  {
    if stmts != [] {
      assert Statement(esc, stmts[0]);
      TrimTrimmed(stmts[0]);
      StatementsKept(esc, stmts[1..]);
      assert [stmts[0]] + stmts[1..] == stmts;
    }
  }

  /** Round trip, exactly: Snowflake statements joined by semicolons are split by the code into
      exactly themselves if and only if the joined text is straight. */
  lemma SplitJoinedIff(stmts: seq<string>)
    requires forall i :: 0 <= i < |stmts| ==> Statement(true, stmts[i])
    ensures Statements(Cut(false, Outside, Join(stmts, ";"))) == stmts <==> Straight(Join(stmts, ";"))
  {
    StatementsKept(true, stmts);
    if stmts != [] {
      CutUnique(true, Outside, stmts);
    }
    LexIsCut(Join(stmts, ";"));
    SplitCorrectIff(Join(stmts, ";"));
  }

  // ---------------------------------------------------------------- straight texts compose

  lemma {:induction false} EscapedQuotesConcat(m: Mode, a: string, b: string)
    ensures EscapedQuotes(m, a + b) == EscapedQuotes(m, a) + EscapedQuotes(Scan(true, m, a), b)
    decreases a
  {
    if a == "" {
      assert a + b == b;
    } else {
      assert (a + b)[1..] == a[1..] + b;
      EscapedQuotesConcat(Next(true, m, a[0]), a[1..], b);
    }
  }

  lemma {:induction false} BentConcat(m: Mode, n: nat, a: string, b: string)
    ensures Bent(m, n, a + b) <==> Bent(m, n, a) || Bent(Scan(true, m, a), n + EscapedQuotes(m, a), b)
    decreases a
  {
    if a == "" {
      assert a + b == b;
    } else {
      assert (a + b)[1..] == a[1..] + b;
      BentCons(m, n, a);
      BentCons(m, n, a + b);
      BentConcat(Next(true, m, a[0]), Counted(m, n, a[0]), a[1..], b);
    }
  }

  lemma {:induction false} BentParity(m: Mode, n: nat, k: nat, s: string)
    requires n % 2 == k % 2
    ensures Bent(m, n, s) <==> Bent(m, k, s)
    decreases s
  {
    if s != "" {
      BentCons(m, n, s);
      BentCons(m, k, s);
      BentParity(Next(true, m, s[0]), Counted(m, n, s[0]), Counted(m, k, s[0]), s[1..]);
    }
  }

  /** When a script is straight, statement by statement: each is, and each but the last has an even
      number of escaped quotes. */
  ghost predicate AllStraight(stmts: seq<string>) {
    forall i :: 0 <= i < |stmts| ==>
      Straight(stmts[i]) && (i < |stmts| - 1 ==> EscapedQuotes(Outside, stmts[i]) % 2 == 0)
  }

  lemma {:induction false} StraightJoinIff(stmts: seq<string>)
    requires forall i :: 0 <= i < |stmts| ==> Scan(true, Outside, stmts[i]).Outside?
    ensures Straight(Join(stmts, ";")) <==> AllStraight(stmts)
  {
    if |stmts| > 1 {
      var p, tail := stmts[0], stmts[1..];
      var rest := ";" + Join(tail, ";");
      var n := EscapedQuotes(Outside, p);
      assert p + ";" + Join(tail, ";") == p + rest;
      BentConcat(Outside, 0, p, rest);
      BentCons(Outside, n, rest);
      assert rest[1..] == Join(tail, ";");
      StraightJoinIff(tail);
      if n % 2 == 0 {
        BentParity(Outside, n, 0, Join(tail, ";"));
      }
      assert AllStraight(stmts) <==> Straight(p) && n % 2 == 0 && AllStraight(tail) by {
        assert forall i :: 0 <= i < |tail| ==> tail[i] == stmts[i + 1];
        assert AllStraight(stmts) && tail != [] ==> Straight(stmts[0]);
        if Straight(p) && n % 2 == 0 && AllStraight(tail) {
          forall i | 0 <= i < |stmts|
            ensures Straight(stmts[i]) && (i < |stmts| - 1 ==> EscapedQuotes(Outside, stmts[i]) % 2 == 0)
          {
            if i > 0 {
              assert stmts[i] == tail[i - 1];
            }
          }
        }
      }
    }
  }

  // ---------------------------------------------------------------- literals are never cut

  /** Whole in both readings, with no escaped quote: the two agree on it. */
  ghost predicate Tame(p: string) {
    Whole(true, p) && Whole(false, p) && EscapedQuotes(Outside, p) == 0
  }

  lemma {:induction false} TameStraight(m: Mode, s: string)
    requires EscapedQuotes(m, s) == 0
    ensures !Bent(m, 0, s)
    decreases s
  {
    if s != "" {
      BentCons(m, 0, s);
      TameStraight(Next(true, m, s[0]), s[1..]);
    }
  }

  /** What a value embedded in a literal becomes keeps the literal open. */
  lemma EscapedChar(esc: bool, c: char)
    ensures Scan(esc, Inside, EscapeChar(c)).Inside? && EscapedQuotes(Inside, EscapeChar(c)) == 0
  {
    var e := EscapeChar(c);
    if |e| == 2 {
      assert e[1..][1..] == "";
      var m := Next(esc, Inside, e[0]);
      assert Scan(esc, Inside, e) == Scan(esc, m, e[1..]) == Scan(esc, Next(esc, m, e[1]), "");
      var r := Next(true, Inside, e[0]);
      assert EscapedQuotes(Inside, e) == EscapedQuotes(r, e[1..]);
      assert EscapedQuotes(Next(true, r, e[1]), "") == 0;
    } else {
      assert e[1..] == "";
    }
  }

  lemma {:induction false} EscapedInside(esc: bool, v: string)
    ensures Scan(esc, Inside, EscapeOnce(v)).Inside? && !Separated(esc, Inside, EscapeOnce(v))
    ensures EscapedQuotes(Inside, EscapeOnce(v)) == 0
  {
    if v != "" {
      var c, e := EscapeChar(v[0]), EscapeOnce(v[1..]);
      EscapedInside(esc, v[1..]);
      EscapedChar(esc, v[0]);
      EscapedChar(true, v[0]);
      ScanConcat(esc, Inside, c, e);
      EscapedQuotesConcat(Inside, c, e);
      SeparatedCons(esc, Inside, c + e);
      if |c| == 2 {
        var t := (c + e)[1..];
        SeparatedCons(esc, Next(esc, Inside, c[0]), t);
        assert t[1..] == e;
      } else {
        assert (c + e)[1..] == e;
      }
    }
  }

  lemma LiteralTame(v: string)
    ensures Tame("'" + EscapeString(v) + "'")
  {
    PassesFuse(StripNul(v));
    var e := EscapeOnce(StripNul(v));
    var s := "'" + e + "'";
    assert s[1..] == e + "'";
    assert "'"[1..] == "";
    LiteralWhole(true, StripNul(v));
    LiteralWhole(false, StripNul(v));
    EscapedInside(true, StripNul(v));
    EscapedQuotesConcat(Inside, e, "'");
  }

  lemma LiteralWhole(esc: bool, v: string)
    ensures Whole(esc, "'" + EscapeOnce(v) + "'")
  {
    var e := EscapeOnce(v);
    var s := "'" + e + "'";
    assert s[1..] == e + "'" && "'"[1..] == "";
    EscapedInside(esc, v);
    ScanConcat(esc, Inside, e, "'");
    SeparatedCons(esc, Outside, s);
    SeparatedConcat(esc, Inside, e, "'");
    SeparatedCons(esc, Inside, "'");
  }

  lemma {:induction false} SeparatedConcat(esc: bool, m: Mode, a: string, b: string)
    ensures Separated(esc, m, a + b) <==> Separated(esc, m, a) || Separated(esc, Scan(esc, m, a), b)
    decreases a
  {
    if a == "" {
      assert a + b == b;
    } else {
      assert (a + b)[1..] == a[1..] + b;
      SeparatedCons(esc, m, a);
      SeparatedCons(esc, m, a + b);
      SeparatedConcat(esc, Next(esc, m, a[0]), a[1..], b);
    }
  }

  /** Tame texts concatenate, so a statement assembled from tame text and escaped values is cut
      neither by the splitter nor by Snowflake, whatever the values contain. */
  lemma TameConcat(a: string, b: string)
    requires Tame(a) && Tame(b)
    ensures Tame(a + b)
  {
    ScanConcat(true, Outside, a, b);
    ScanConcat(false, Outside, a, b);
    SeparatedConcat(true, Outside, a, b);
    SeparatedConcat(false, Outside, a, b);
    EscapedQuotesConcat(Outside, a, b);
  }

  /** What can be written into a script: tame, trimmed and not blank. */
  ghost predicate TameStatement(p: string) {
    Tame(p) && Trimmed(p) && p != ""
  }

  /** Closed and straight with no escaped quote: no obstacle in a script. */
  ghost predicate Smooth(p: string) {
    Scan(true, Outside, p).Outside? && Straight(p) && EscapedQuotes(Outside, p) == 0
  }

  lemma TameSmooth(p: string)
    requires Tame(p)
    ensures Smooth(p)
  {
    TameStraight(Outside, p);
  }

  lemma SmoothJoin(stmts: seq<string>)
    requires forall i :: 0 <= i < |stmts| ==> Smooth(stmts[i])
    ensures Straight(Join(stmts, ";"))
  {
    forall i | 0 <= i < |stmts|
      ensures Scan(true, Outside, stmts[i]).Outside? && Straight(stmts[i])
      ensures i < |stmts| - 1 ==> EscapedQuotes(Outside, stmts[i]) % 2 == 0
    {
      assert Smooth(stmts[i]);
    }
    StraightJoinIff(stmts);
  }

  /** So a script of tame statements is executed as written: joined by semicolons, they are split by
      the code into exactly themselves. */
  lemma TameSplit(stmts: seq<string>)
    requires forall i :: 0 <= i < |stmts| ==> TameStatement(stmts[i])
    ensures Statements(Cut(false, Outside, Join(stmts, ";"))) == stmts
  {
    forall i | 0 <= i < |stmts| ensures Smooth(stmts[i]) {
      assert TameStatement(stmts[i]);
      TameSmooth(stmts[i]);
    }
    SmoothJoin(stmts);
    TameStatements(stmts);
    SplitJoinedIff(stmts);
  }

  lemma TameStatements(stmts: seq<string>)
    requires forall i :: 0 <= i < |stmts| ==> TameStatement(stmts[i])
    ensures forall i :: 0 <= i < |stmts| ==> Statement(true, stmts[i])
  {
    forall i | 0 <= i < |stmts| ensures Statement(true, stmts[i]) {
      assert TameStatement(stmts[i]);
    }
  }
}
