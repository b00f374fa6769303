/** Custom resources over time: an admitted create followed by any number of admitted
    updates, and what the two shapes of "immutable" rule guarantee along such runs. */
module Lifecycle {
  import opened Strings

  /** A run: the first spec is admitted as a create, each next one as an update of the one before. */
  ghost predicate IsRun<S>(run: seq<S>, create: S -> bool, update: (S, S) -> bool) {
    |run| >= 1 && create(run[0]) && forall i :: 0 <= i < |run| - 1 ==> update(run[i], run[i + 1])
  }

  /** What a create establishes and every update keeps holds at every point of a run. */
  lemma {:induction false} AlongRun<S(!new)>(
    run: seq<S>, create: S -> bool, update: (S, S) -> bool, inv: S -> bool, i: nat)
    requires IsRun(run, create, update) && i < |run|
    requires forall s :: create(s) ==> inv(s)
    requires forall s, t :: inv(s) && update(s, t) ==> inv(t)
    ensures inv(run[i])
  {
    if i > 0 {
      AlongRun(run, create, update, inv, i - 1);
      assert update(run[i - 1], run[i - 1 + 1]);
    }
  }

  // ---------------------------------------------------------------- the two shapes of rule

  /** has(old) == has(new) && (!has(new) || new == old) */
  predicate Immutable<T(==)>(before: Option<T>, after: Option<T>) {
    before.Some? == after.Some? && (!after.Some? || after.value == before.value)
  }

  /** !has(old) || !has(new) || new == old */
  predicate WeaklyImmutable<T(==)>(before: Option<T>, after: Option<T>) {
    !before.Some? || !after.Some? || after.value == before.value
  }

  /** The first shape is equality of options: the field never changes in any run. */
  lemma {:induction false} ImmutableConstant<T>(run: seq<Option<T>>, i: nat)
    requires |run| >= 1 && i < |run|
    requires forall k :: 0 <= k < |run| - 1 ==> Immutable(run[k], run[k + 1])
    ensures run[i] == run[0]
  {
    if i > 0 {
      ImmutableConstant(run, i - 1);
      assert Immutable(run[i - 1], run[i - 1 + 1]);
    }
  }

  ghost predicate WeakRun<T>(run: seq<Option<T>>) {
    forall k :: 0 <= k < |run| - 1 ==> WeaklyImmutable(run[k], run[k + 1])
  }

  /** The second shape keeps the value only while the field stays set: two set values of a run
      can differ only if the field was absent somewhere between them. */
  lemma {:induction false} WeakSegment<T>(run: seq<Option<T>>, i: nat, j: nat)
    requires WeakRun(run) && i <= j < |run| && run[i].Some? && run[j].Some? && run[i] != run[j]
    ensures exists k :: i < k < j && run[k].None?
  {
    if i == j {
    } else if run[j - 1].None? {
      assert i < j - 1 < j && run[j - 1].None?;
    } else {
      assert WeaklyImmutable(run[j - 1], run[j - 1 + 1]);
      assert run[j - 1] == run[j];
      WeakSegment(run, i, j - 1);
      var k :| i < k < j - 1 && run[k].None?;
      assert i < k < j && run[k].None?;
    }
  }

  /** And it lets the field become anything: any value is two updates away from any other. */
  lemma WeakConnects<T>(a: Option<T>, b: Option<T>)
    ensures WeakRun([a, None, b])
  {
    var run := [a, None, b];
    assert WeaklyImmutable(run[0], run[1]) && WeaklyImmutable(run[1], run[2]);
  }
}
