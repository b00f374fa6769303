/** The operations of Go's `strings` package that the modelled code relies on, as
    functions on `seq<char>`, with the laws the other modules use.  Case folding is
    the ASCII one; white space is the set of Go's `unicode.IsSpace`. */
module Strings {

  datatype Option<+T> = None | Some(value: T)

  /** A JSON string that Go decodes to "" when the key is absent. */
  function OrEmpty(s: Option<string>): (r: string) {
    if s.Some? then s.value else ""
  }

  // ---------------------------------------------------------------- substrings

  predicate OccursAt(s: string, sub: string, i: int) {
    0 <= i <= i + |sub| <= |s| && s[i..i + |sub|] == sub
  }

  // ---------------------------------------------------------------- split and join

  /** `strings.Split` for a one-character separator. */
  function Split(s: string, sep: char): (parts: seq<string>)
    ensures |parts| >= 1
    ensures forall i :: 0 <= i < |parts| ==> sep !in parts[i]
  {
    if s == [] then [""]
    else
      var rest := Split(s[1..], sep);
      if s[0] == sep then [""] + rest else [[s[0]] + rest[0]] + rest[1..]
  }

  /** `strings.Join`. */
  function Join(parts: seq<string>, sep: string): (s: string) {
    if |parts| == 0 then ""
    else if |parts| == 1 then parts[0]
    else parts[0] + sep + Join(parts[1..], sep)
  }

  /** A character put in front of the first part goes in front of the joined string. */
  lemma JoinCons(c: char, parts: seq<string>, sep: string)
    requires |parts| >= 1
    ensures Join([[c] + parts[0]] + parts[1..], sep) == [c] + Join(parts, sep)
  {
  }

  /** Splitting loses nothing. */
  lemma {:induction false} JoinSplit(s: string, sep: char)
    ensures Join(Split(s, sep), [sep]) == s
  {
    if s == [] {
    } else {
      var rest := Split(s[1..], sep);
      JoinSplit(s[1..], sep);
      assert s == [s[0]] + s[1..];
      if s[0] == sep {
        assert ([""] + rest)[1..] == rest;
      } else {
        JoinCons(s[0], rest, [sep]);
      }
    }
  }

  /** A string without the separator is one part. */
  lemma {:induction false} SplitAtom(s: string, sep: char)
    requires sep !in s
    ensures Split(s, sep) == [s]
  {
    if s == [] {
    } else {
      SplitAtom(s[1..], sep);
      assert [s[0]] + s[1..] == s;
    }
  }

  /** The first separator ends the first part. */
  lemma {:induction false} SplitHead(head: string, sep: char, tail: string)
    requires sep !in head
    ensures Split(head + [sep] + tail, sep) == [head] + Split(tail, sep)
  {
    var s := head + [sep] + tail;
    if head == [] {
      assert s[1..] == tail;
    } else {
      SplitHead(head[1..], sep, tail);
      assert s[1..] == head[1..] + [sep] + tail;
      assert [head[0]] + head[1..] == head;
    }
  }

  /** Splitting undoes joining when no part holds the separator. */
  lemma {:induction false} SplitJoin(parts: seq<string>, sep: char)
    requires |parts| >= 1
    requires forall i :: 0 <= i < |parts| ==> sep !in parts[i]
    ensures Split(Join(parts, [sep]), sep) == parts
  {
    if |parts| == 1 {
      SplitAtom(parts[0], sep);
    } else {
      SplitJoin(parts[1..], sep);
      SplitHead(parts[0], sep, Join(parts[1..], [sep]));
    }
  }

  /** Joining distributes over concatenation of non-empty lists. */
  lemma {:induction false} JoinConcat(xs: seq<string>, ys: seq<string>, sep: string)
    requires |xs| >= 1 && |ys| >= 1
    ensures Join(xs + ys, sep) == Join(xs, sep) + sep + Join(ys, sep)
  {
    if |xs| == 1 {
      assert (xs + ys)[1..] == ys;
    } else {
      assert (xs + ys)[1..] == xs[1..] + ys;
      JoinConcat(xs[1..], ys, sep);
    }
  }

  /** Splitting distributes over a separator placed anywhere. */
  lemma SplitConcat(a: string, sep: char, b: string)
    ensures Split(a + [sep] + b, sep) == Split(a, sep) + Split(b, sep)
  {
    JoinSplit(a, sep);
    JoinSplit(b, sep);
    JoinConcat(Split(a, sep), Split(b, sep), [sep]);
    SplitJoin(Split(a, sep) + Split(b, sep), sep);
  }

  // ---------------------------------------------------------------- white space

  /** Go's `unicode.IsSpace`. */
  predicate IsSpace(c: char) {
    c == '\t' || c == '\n' || c == '\U{0b}' || c == '\U{0c}' || c == '\r' || c == ' ' ||
    c == '\U{85}' || c == '\U{a0}' || c == '\U{1680}' || '\U{2000}' <= c <= '\U{200a}' ||
    c == '\U{2028}' || c == '\U{2029}' || c == '\U{202f}' || c == '\U{205f}' || c == '\U{3000}'
  }

  /** The white space of Unicode by code point. */
  lemma SpaceCodes(c: char)
    ensures var n := c as int;
            IsSpace(c) <==> 9 <= n <= 13 || n in {32, 133, 160, 5760} || 8192 <= n <= 8202 || n in {8232, 8233, 8239, 8287, 12288}
  {
  }

  /** The first position from `i` on that is not white space. */
  function SkipSpace(s: string, i: nat): (lo: nat)
    requires i <= |s|
    ensures i <= lo <= |s|
    ensures forall k :: i <= k < lo ==> IsSpace(s[k])
    ensures lo < |s| ==> !IsSpace(s[lo])
    decreases |s| - i
  {
    if i < |s| && IsSpace(s[i]) then SkipSpace(s, i + 1) else i
  }

  /** The end of the text in `s[lo..j]` once trailing white space is dropped. */
  function DropSpace(s: string, lo: nat, j: nat): (hi: nat)
    requires lo <= j <= |s|
    ensures lo <= hi <= j
    ensures forall k :: hi <= k < j ==> IsSpace(s[k])
    ensures lo < hi ==> !IsSpace(s[hi - 1])
  {
    if lo < j && IsSpace(s[j - 1]) then DropSpace(s, lo, j - 1) else j
  }

  /** `strings.TrimSpace`. */
  function Trim(s: string): (r: string) {
    var lo := SkipSpace(s, 0);
    s[lo..DropSpace(s, lo, |s|)]
  }

  /** No white space at either end. */
  predicate Trimmed(s: string) {
    s == "" || (!IsSpace(s[0]) && !IsSpace(s[|s| - 1]))
  }

  /** `s` is `s[lo..hi]` between two runs of white space, and that window is trimmed. */
  ghost predicate Window(s: string, lo: nat, hi: nat) {
    && lo <= hi <= |s|
    && (lo < hi ==> !IsSpace(s[lo]) && !IsSpace(s[hi - 1]))
    && (forall i :: 0 <= i < lo || hi <= i < |s| ==> IsSpace(s[i]))
  }

  /** Trimming yields exactly the window between the white space. */
  lemma TrimWindow(s: string, lo: nat, hi: nat)
    requires Window(s, lo, hi)
    ensures Trim(s) == s[lo..hi]
  {
  }

  lemma TrimIsWindow(s: string) returns (lo: nat, hi: nat)
    ensures Window(s, lo, hi) && Trim(s) == s[lo..hi] && Trimmed(Trim(s))
  {
    lo := SkipSpace(s, 0);
    hi := DropSpace(s, lo, |s|);
  }

  /** A trimmed string is its own trimming. */
  lemma TrimTrimmed(s: string)
    requires Trimmed(s)
    ensures Trim(s) == s
  {
  }

  // ---------------------------------------------------------------- case

  function UpperChar(c: char): (u: char) {
    if 'a' <= c <= 'z' then c - 'a' + 'A' else c
  }

  /** The small letters of ASCII move to the capitals, and nothing else moves. */
  lemma UpperCodes(c: char)
    ensures var n := c as int; UpperChar(c) as int == if 97 <= n < 97 + 26 then n - 32 else n
  {
  }

  /** `strings.ToUpper` on ASCII letters. */
  function Upper(s: string): (u: string)
    ensures |u| == |s| && forall i :: 0 <= i < |s| ==> u[i] == UpperChar(s[i])
  {
    seq(|s|, i requires 0 <= i < |s| => UpperChar(s[i]))
  }

  /** `strings.EqualFold` on ASCII letters. */
  predicate EqualFold(a: string, b: string) {
    Upper(a) == Upper(b)
  }

  lemma UpperIdempotent(s: string)
    ensures Upper(Upper(s)) == Upper(s)
  {
  }

  function MapUpper(ss: seq<string>): (r: seq<string>)
    ensures |r| == |ss| && forall i :: 0 <= i < |ss| ==> r[i] == Upper(ss[i])
  {
    seq(|ss|, i requires 0 <= i < |ss| => Upper(ss[i]))
  }

  lemma {:induction false} JoinUpper(parts: seq<string>, sep: char)
    requires UpperChar(sep) == sep
    ensures Join(MapUpper(parts), [sep]) == Upper(Join(parts, [sep]))
  {
    if |parts| <= 1 {
    } else {
      JoinUpper(parts[1..], sep);
      assert MapUpper(parts)[1..] == MapUpper(parts[1..]);
      assert Upper(parts[0] + [sep] + Join(parts[1..], [sep]))
          == Upper(parts[0]) + [sep] + Upper(Join(parts[1..], [sep]));
    }
  }

  /** Upper-casing commutes with splitting at a character that is not a letter. */
  lemma SplitUpper(s: string, sep: char)
    requires !('a' <= sep <= 'z') && !('A' <= sep <= 'Z')
    ensures Split(Upper(s), sep) == MapUpper(Split(s, sep))
  {
    var parts := Split(s, sep);
    JoinSplit(s, sep);
    JoinUpper(parts, sep);
    forall i | 0 <= i < |parts| ensures sep !in MapUpper(parts)[i] {
      assert sep !in parts[i];
    }
    SplitJoin(MapUpper(parts), sep);
  }

  lemma UpperSpace(c: char)
    ensures IsSpace(UpperChar(c)) == IsSpace(c)
  {
  }

  /** Upper-casing commutes with trimming. */
  lemma TrimUpper(s: string)
    ensures Trim(Upper(s)) == Upper(Trim(s))
  {
    var lo, hi := TrimIsWindow(s);
    var u := Upper(s);
    forall i | 0 <= i < |s| ensures IsSpace(u[i]) == IsSpace(s[i]) {
      UpperSpace(s[i]);
    }
    assert Window(u, lo, hi);
    TrimWindow(u, lo, hi);
    assert u[lo..hi] == Upper(s[lo..hi]);
  }
}
