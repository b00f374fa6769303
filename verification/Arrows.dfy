/** Names of the form "x -> y", as every grant reports one: when the two sides can be told apart. */
module Arrows {
  import opened Strings

  /** A separator between blanks that overlaps itself in its outer blank only. */
  predicate IsArrow(arrow: string) {
    && |arrow| >= 3 && arrow[0] == ' ' && arrow[|arrow| - 1] == ' '
    && forall k :: 0 < k < |arrow| - 1 ==> !(arrow[k] == ' ' && arrow[k + 1] == arrow[1])
  }

  /** The text behind an arrow that can itself be read as the end of the left side, the arrow, and
      more behind it. */
  ghost predicate HiddenInLast(arrow: string, text: string) {
    exists i :: HiddenInLastAt(arrow, text, i)
  }

  predicate HiddenInLastAt(arrow: string, text: string, i: int) {
    OccursAt(" " + text, arrow, i) && i + |arrow| < |text| + 1
  }

  /** The text before an arrow that can itself be read as something, the arrow, and the start of the
      right side. */
  ghost predicate HiddenInFirst(arrow: string, text: string) {
    exists i :: HiddenInFirstAt(arrow, text, i)
  }

  predicate HiddenInFirstAt(arrow: string, text: string, i: int) {
    i > 0 && OccursAt(text + " ", arrow, i)
  }

  lemma OccursChar(text: string, sub: string, i: nat, k: nat)
    requires OccursAt(text, sub, i) && k < |sub|
    ensures text[i + k] == sub[k]
  {
    assert text[i..i + |sub|][k] == sub[k];
  }

  /** Two arrows in one text are apart by all but their outer blank. */
  lemma NoOverlap(arrow: string, text: string, i: nat, j: nat)
    requires IsArrow(arrow) && i < j && OccursAt(text, arrow, i) && OccursAt(text, arrow, j)
    ensures j >= i + |arrow| - 1
  {
    OccursChar(text, arrow, j, 0);
    OccursChar(text, arrow, j, 1);
    if j - i < |arrow| - 1 {
      OccursChar(text, arrow, i, j - i);
      OccursChar(text, arrow, i, j - i + 1);
    }
  }

  lemma SliceOfRest(s: string, from: nat, i: nat, n: nat)
    requires from <= i <= i + n <= |s|
    ensures s[from..][i - from..i - from + n] == s[i..i + n]
  {
  }

  lemma ArrowAt(x: string, arrow: string, s: string)
    ensures OccursAt(x + arrow + s, arrow, |x|)
  {
    assert (x + arrow + s)[|x|..|x| + |arrow|] == arrow;
  }

  /** Of two right sides of one text the longer one hides the arrow of the other. */
  lemma ShorterLastHidden(arrow: string, x: string, s: string, y: string, t: string)
    requires IsArrow(arrow) && x + arrow + s == y + arrow + t && 0 < |s| < |t|
    ensures HiddenInLast(arrow, t)
  {
    var text := x + arrow + s;
    ArrowAt(x, arrow, s);
    ArrowAt(y, arrow, t);
    NoOverlap(arrow, text, |y|, |x|);
    var from := |y| + |arrow| - 1;
    assert " " + t == text[from..];
    SliceOfRest(text, from, |x|, |arrow|);
    assert HiddenInLastAt(arrow, t, |x| - from);
  }

  /** Of two left sides of one text the longer one hides the arrow of the other. */
  lemma ShorterFirstHidden(arrow: string, x: string, s: string, y: string, t: string)
    requires IsArrow(arrow) && x + arrow + s == y + arrow + t && 0 < |x| < |y|
    ensures HiddenInFirst(arrow, y)
  {
    var text := x + arrow + s;
    ArrowAt(x, arrow, s);
    ArrowAt(y, arrow, t);
    NoOverlap(arrow, text, |x|, |y|);
    assert y + " " == text[..|y| + 1];
    assert text[..|y| + 1][|x|..|x| + |arrow|] == text[|x|..|x| + |arrow|];
    assert HiddenInFirstAt(arrow, y, |x|);
  }

  lemma SameSplit(arrow: string, x: string, s: string, y: string, t: string)
    requires x + arrow + s == y + arrow + t && |x| == |y|
    ensures x == y && s == t
  {
    var text := x + arrow + s;
    assert x == text[..|x|] == y;
    assert s == text[|x| + |arrow|..] == t;
  }

  /** Right sides that hide no arrow determine the split. */
  lemma LastDetermined(arrow: string, x: string, s: string, y: string, t: string)
    requires IsArrow(arrow) && x + arrow + s == y + arrow + t
    requires s != "" && t != "" && !HiddenInLast(arrow, s) && !HiddenInLast(arrow, t)
    ensures x == y && s == t
  {
    assert |x| + |s| == |y| + |t|;
    if |s| < |t| {
      ShorterLastHidden(arrow, x, s, y, t);
    } else if |t| < |s| {
      ShorterLastHidden(arrow, y, t, x, s);
    }
    SameSplit(arrow, x, s, y, t);
  }

  /** Left sides that hide no arrow determine it as well. */
  lemma FirstDetermined(arrow: string, x: string, s: string, y: string, t: string)
    requires IsArrow(arrow) && x + arrow + s == y + arrow + t
    requires x != "" && y != "" && !HiddenInFirst(arrow, x) && !HiddenInFirst(arrow, y)
    ensures x == y && s == t
  {
    if |x| < |y| {
      ShorterFirstHidden(arrow, x, s, y, t);
    } else if |y| < |x| {
      ShorterFirstHidden(arrow, y, t, x, s);
    }
    SameSplit(arrow, x, s, y, t);
  }
}
