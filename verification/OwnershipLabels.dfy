/** Who manages a Snowflake object that several custom resources of one kind name
    (internal/controller/reconciler/ownership.go and the branches of reconciler.go that use it).

    Creating and adopting list the labelled resources and then, if there is no other, stamp a
    label; these are two calls to the API server, so the steps of different resources
    interleave.  Two ways lead to a report without a label: observing makes no such check, and an
    adoption whose spec cannot be hashed commits its status before the label is stamped.  A
    resource that has reported manages the object as soon as it is not observe-only. */
module OwnershipLabels {

  /** Resources are numbered.  `cleared` have passed the check and not stamped yet, `labelled` carry
      the label, `looking` are in an observe-only reconcile, `reported` have committed an observed
      generation, `watching` are switched to observe-only. */
  datatype State = State(
    cleared: set<nat>, labelled: set<nat>, looking: set<nat>, reported: set<nat>, watching: set<nat>)

  const NONE := State({}, {}, {}, {}, {})

  /** The resources whose reconciles alter the object: those that created or adopted it, and those
      that have reported it, unless they only observe. */
  function Managers(s: State): (r: set<nat>) {
    (s.labelled + s.reported) - s.watching
  }

  datatype Action =
    | Check(id: nat)
    | Stamp(id: nat)
    | Look(id: nat)         // an observe-only reconcile finds the object
    | Report(id: nat)       // the status patch that commits the observed generation
    | HashFails(id: nat)    // an adoption commits its status and stops before the stamp
    | GiveUp(id: nat)       // a patch fails, or the controller dies before it
    | Switch(id: nat, observeOnly: bool)
    | Remove(id: nat)       // the resource is deleted

  function Step(s: State, a: Action): (t: State) {
    match a
    case Check(i) =>
      if s.labelled <= {i} then s.(cleared := s.cleared + {i}) else s.(cleared := s.cleared - {i})
    case Stamp(i) =>
      if i in s.cleared then s.(cleared := s.cleared - {i}, labelled := s.labelled + {i}) else s
    case Look(i) => if i in s.watching then s.(looking := s.looking + {i}) else s
    case Report(i) =>
      if i in s.looking + s.labelled + s.reported
      then s.(looking := s.looking - {i}, reported := s.reported + {i}) else s
    case HashFails(i) =>
      if i in s.cleared then s.(cleared := s.cleared - {i}, reported := s.reported + {i}) else s
    case GiveUp(i) => s.(cleared := s.cleared - {i}, looking := s.looking - {i})
    case Switch(i, observeOnly) =>
      s.(watching := if observeOnly then s.watching + {i} else s.watching - {i})
    case Remove(i) =>
      State(s.cleared - {i}, s.labelled - {i}, s.looking - {i}, s.reported - {i}, s.watching - {i})
  }

  function Exec(s: State, run: seq<Action>): (t: State)
    decreases run
  {
    if run == [] then s else Exec(Step(s, run[0]), run[1..])
  }

  /** At no time are more than `width` resources between check and stamp. */
  predicate Width(s: State, run: seq<Action>, width: nat)
    decreases run
  {
    |s.cleared| <= width && (run == [] || Width(Step(s, run[0]), run[1..], width))
  }

  /** A step that reports the object for a resource without a label. */
  predicate Bypasses(s: State, a: Action) {
    a.id !in s.labelled && ((a.Report? && a.id in s.looking) || (a.HashFails? && a.id in s.cleared))
  }

  /** The resources that report the object without a label. */
  function Unchecked(s: State, run: seq<Action>): (r: set<nat>)
    decreases run
  {
    if run == [] then {}
    else
      (if Bypasses(s, run[0]) then {run[0].id} else {}) + Unchecked(Step(s, run[0]), run[1..])
  }

  /** The check clears a resource if and only if no other carries the label, whatever was the case
      before, and giving up leaves nothing of it behind. */
  lemma CheckIff(s: State, i: nat)
    ensures i in Step(s, Check(i)).cleared <==> forall j :: j in s.labelled ==> j == i
    ensures i !in Step(s, GiveUp(i)).cleared + Step(s, GiveUp(i)).looking
    ensures Step(s, GiveUp(i)).labelled == s.labelled && Step(s, GiveUp(i)).reported == s.reported
  {
  }

  // ---------------------------------------------------------------- how many managers there are

  lemma SubsetSize(a: set<nat>, b: set<nat>)
    requires a <= b
    ensures |a| <= |b|
  {
    if a != {} {
      var x :| x in a;
      SubsetSize(a - {x}, b - {x});
    }
  }

  /** What every step keeps: everybody who is labelled or about to be was cleared at one and the
      same time, except for those that have left since. */
  lemma ClaimsStep(s: State, a: Action, width: nat)
    requires |s.cleared + s.labelled| <= width && |Step(s, a).cleared| <= width
    ensures |Step(s, a).cleared + Step(s, a).labelled| <= width
  {
    var t := Step(s, a);
    if a.Check? && s.labelled <= {a.id} {
      assert t.cleared + t.labelled == t.cleared;
    } else {
      SubsetSize(t.cleared + t.labelled, s.cleared + s.labelled);
    }
  }

  lemma {:induction false} ClaimsRun(s: State, run: seq<Action>, width: nat)
    requires |s.cleared + s.labelled| <= width && Width(s, run, width)
    ensures |Exec(s, run).cleared + Exec(s, run).labelled| <= width
    decreases run
  {
    if run != [] {
      ClaimsStep(s, run[0], width);
      ClaimsRun(Step(s, run[0]), run[1..], width);
    }
  }

  /** Whoever has reported without a label did so past the check: a label goes away only with its
      resource, and takes the report along. */
  lemma {:induction false} LabelledRun(s: State, run: seq<Action>)
    ensures Exec(s, run).reported <= Exec(s, run).labelled + (s.reported - s.labelled) + Unchecked(s, run)
    decreases run
  {
    if run != [] {
      LabelledRun(Step(s, run[0]), run[1..]);
    }
  }

  /** In every run the object has at most as many managers as resources were ever between check
      and stamp together, plus those that reported it without a label. */
  lemma ManagersBound(run: seq<Action>, width: nat)
    requires Width(NONE, run, width)
    ensures |Managers(Exec(NONE, run))| <= width + |Unchecked(NONE, run)|
  {
    var t, u := Exec(NONE, run), Unchecked(NONE, run);
    ClaimsRun(NONE, run, width);
    SubsetSize(t.labelled, t.cleared + t.labelled);
    LabelledRun(NONE, run);
    SubsetSize(Managers(t), t.labelled + u);
    assert |t.labelled + u| <= |t.labelled| + |u|;
  }

  /** A run after which exactly the given resources manage the object. */
  ghost predicate Reaches(s: State, run: seq<Action>, width: nat, managers: set<nat>, unchecked: set<nat>) {
    Width(s, run, width) && Managers(Exec(s, run)) == managers && Unchecked(s, run) == unchecked
  }

  lemma First(s: State, a: Action, rest: seq<Action>, width: nat)
    ensures Exec(s, [a] + rest) == Exec(Step(s, a), rest)
    ensures Width(s, [a] + rest, width) <==> |s.cleared| <= width && Width(Step(s, a), rest, width)
    ensures Unchecked(s, [a] + rest) == (if Bypasses(s, a) then {a.id} else {}) + Unchecked(Step(s, a), rest)
  {
    assert ([a] + rest)[1..] == rest;
  }

  /** A step in front of a run. */
  lemma Before(s: State, a: Action, rest: seq<Action>, width: nat, managers: set<nat>, unchecked: set<nat>)
    requires |s.cleared| <= width && Reaches(Step(s, a), rest, width, managers, unchecked)
    ensures Reaches(s, [a] + rest, width, managers, (if Bypasses(s, a) then {a.id} else {}) + unchecked)
  {
    First(s, a, rest, width);
  }

  lemma Stays(s: State, width: nat)
    requires |s.cleared| <= width && s.watching == {}
    ensures Reaches(s, [], width, s.labelled + s.reported, {})
  {
  }

  /** A resource that watches, reports and is switched back. */
  lemma Joins(s: State, i: nat, rest: seq<Action>, width: nat, managers: set<nat>, unchecked: set<nat>)
    returns (run: seq<Action>)
    requires s.cleared == {} && s.watching == {} && s.looking == {} && i !in s.labelled
    requires Reaches(s.(reported := s.reported + {i}), rest, width, managers, unchecked)
    ensures Reaches(s, run, width, managers, {i} + unchecked)
  {
    var t := s.(reported := s.reported + {i});
    var s1 := s.(watching := {i});
    var s2, s3 := s1.(looking := {i}), t.(watching := {i});
    assert Step(s3, Switch(i, false)) == t;
    Before(s3, Switch(i, false), rest, width, managers, unchecked);
    assert {} + unchecked == unchecked;
    assert Step(s2, Report(i)) == s3;
    Before(s2, Report(i), [Switch(i, false)] + rest, width, managers, unchecked);
    var r2 := [Report(i)] + ([Switch(i, false)] + rest);
    assert Step(s1, Look(i)) == s2;
    Before(s1, Look(i), r2, width, managers, {i} + unchecked);
    assert {} + ({i} + unchecked) == {i} + unchecked;
    assert Step(s, Switch(i, true)) == s1;
    Before(s, Switch(i, true), [Look(i)] + r2, width, managers, {i} + unchecked);
    run := [Switch(i, true)] + ([Look(i)] + r2);
  }

  lemma TakeOut(a: set<nat>, b: set<nat>, others: set<nat>, i: nat)
    requires i in others
    ensures a + (b + {i}) + (others - {i}) == a + b + others && {i} + (others - {i}) == others
  {
  }

  lemma {:induction false} AllWatch(s: State, others: set<nat>, width: nat) returns (run: seq<Action>)
    requires s.cleared == {} && s.watching == {} && s.looking == {} && others !! s.labelled
    ensures Reaches(s, run, width, s.labelled + s.reported + others, others)
    decreases others
  {
    if others == {} {
      Stays(s, width);
      run := [];
      assert s.labelled + s.reported + others == s.labelled + s.reported;
    } else {
      var i :| i in others;
      var rest := AllWatch(s.(reported := s.reported + {i}), others - {i}, width);
      TakeOut(s.labelled, s.reported, others, i);
      run := Joins(s, i, rest, width, s.labelled + s.reported + others, others - {i});
    }
  }

  /** All that are cleared stamp, one after the other, and then others come through observe-only. */
  lemma {:induction false} AllStamp(s: State, others: set<nat>, width: nat) returns (run: seq<Action>)
    requires |s.cleared| <= width && s.watching == {} && s.looking == {} && others !! s.cleared + s.labelled
    ensures Reaches(s, run, width, s.cleared + s.labelled + s.reported + others, others)
    decreases s.cleared
  {
    if s.cleared == {} {
      run := AllWatch(s, others, width);
      assert s.cleared + s.labelled + s.reported + others == s.labelled + s.reported + others;
    } else {
      var i :| i in s.cleared;
      var t := Step(s, Stamp(i));
      assert t.cleared < s.cleared && t.cleared + t.labelled == s.cleared + s.labelled;
      SubsetSize(t.cleared, s.cleared);
      var rest := AllStamp(t, others, width);
      run := [Stamp(i)] + rest;
      Before(s, Stamp(i), rest, width, s.cleared + s.labelled + s.reported + others, others);
      assert {} + others == others;
    }
  }

  /** First all check, then all stamp. */
  lemma {:induction false} AllCheck(s: State, todo: set<nat>, others: set<nat>, width: nat) returns (run: seq<Action>)
    requires s.labelled == {} && s.watching == {} && s.looking == {}
    requires |s.cleared + todo| <= width && others !! s.cleared + todo
    ensures Reaches(s, run, width, s.cleared + todo + s.reported + others, others)
    decreases todo
  {
    SubsetSize(s.cleared, s.cleared + todo);
    if todo == {} {
      run := AllStamp(s, others, width);
      assert s.cleared + s.labelled + s.reported + others == s.cleared + todo + s.reported + others;
    } else {
      var i :| i in todo;
      var t := s.(cleared := s.cleared + {i});
      assert t.cleared + (todo - {i}) == s.cleared + todo;
      var rest := AllCheck(t, todo - {i}, others, width);
      assert Step(s, Check(i)) == t;
      run := [Check(i)] + rest;
      Before(s, Check(i), rest, width, s.cleared + todo + s.reported + others, others);
      assert {} + others == others;
    }
  }

  /** An adopter that passes the check and reports without the stamp. */
  lemma Adopts(s: State, i: nat, rest: seq<Action>, width: nat, managers: set<nat>, unchecked: set<nat>)
    returns (run: seq<Action>)
    requires width >= 1 && s.cleared == {} && s.labelled == {}
    requires Reaches(s.(reported := s.reported + {i}), rest, width, managers, unchecked)
    ensures Reaches(s, run, width, managers, {i} + unchecked)
  {
    var s1 := s.(cleared := {i});
    assert Step(s1, HashFails(i)) == s.(reported := s.reported + {i});
    Before(s1, HashFails(i), rest, width, managers, unchecked);
    assert Step(s, Check(i)) == s1;
    Before(s, Check(i), [HashFails(i)] + rest, width, managers, {i} + unchecked);
    assert {} + ({i} + unchecked) == {i} + unchecked;
    run := [Check(i)] + ([HashFails(i)] + rest);
  }

  lemma PutBack(a: set<nat>, b: set<nat>, i: nat)
    requires i in a
    ensures {i} + ((a - {i}) + b) == a + b
  {
  }

  lemma {:induction false} AllAdopt(s: State, failed: set<nat>, ids: set<nat>, others: set<nat>, width: nat)
    returns (run: seq<Action>)
    requires s.cleared == {} && s.labelled == {} && s.watching == {} && s.looking == {}
    requires |ids| <= width && (failed == {} || width >= 1) && others !! ids
    ensures Reaches(s, run, width, ids + s.reported + failed + others, failed + others)
    decreases failed
  {
    if failed == {} {
      assert s.cleared + ids == ids;
      run := AllCheck(s, ids, others, width);
      assert ids + s.reported + failed + others == ids + s.reported + others && failed + others == others;
    } else {
      var i :| i in failed;
      var rest := AllAdopt(s.(reported := s.reported + {i}), failed - {i}, ids, others, width);
      TakeOut(ids, s.reported, failed, i);
      run := Adopts(s, i, rest, width, ids + s.reported + failed + others, (failed - {i}) + others);
      PutBack(failed, others, i);
    }
  }

  /** The bound is reached for every degree of overlap and every number of resources that pass the
      check by: any set can pass the check together, and any others join them through failed
      adoptions and through observe-only. */
  lemma ManagersReached(ids: set<nat>, failed: set<nat>, others: set<nat>, width: nat) returns (run: seq<Action>)
    requires |ids| <= width && (failed == {} || width >= 1) && ids !! others
    ensures Width(NONE, run, width) && Unchecked(NONE, run) == failed + others
    ensures Managers(Exec(NONE, run)) == ids + failed + others
  {
    run := AllAdopt(NONE, failed, ids, others, width);
    assert ids + NONE.reported + failed + others == ids + failed + others;
  }

  /** A manager that leaves frees the object: when the only labelled resource is removed, any other can
      pass the check and stamp, and then manages it. */
  lemma RemovalFrees(s: State, owner: nat, next: nat)
    requires s.labelled == {owner} && next != owner && next !in s.watching
    ensures var t := Exec(s, [Remove(owner), Check(next), Stamp(next)]);
            t.labelled == {next} && next in Managers(t) && owner !in Managers(t)
    ensures next !in Step(s, Check(next)).cleared
  {
    var run := [Remove(owner), Check(next), Stamp(next)];
    assert run[1..] == [Check(next), Stamp(next)] && run[1..][1..] == [Stamp(next)];
    var s1 := Step(s, Remove(owner));
    var s2 := Step(s1, Check(next));
    assert s1.labelled == {} && next in s2.cleared;
    assert Exec(s, run) == Exec(s1, run[1..]) == Exec(s2, run[1..][1..]) == Step(s2, Stamp(next));
  }

  // ---------------------------------------------------------------- late managers

  /** What a resource's own observe-only history makes of it. */
  datatype View = View(looking: bool, reported: bool, watching: bool)

  function ViewOf(s: State, i: nat): (v: View) {
    View(i in s.looking, i in s.reported, i in s.watching)
  }

  function ViewStep(v: View, i: nat, a: Action): (r: View) {
    if a.id != i then v
    else
      match a
      case Look(_) => v.(looking := v.looking || v.watching)
      case Report(_) => v.(looking := false, reported := v.reported || v.looking)
      case GiveUp(_) => v.(looking := false)
      case Switch(_, observeOnly) => v.(watching := observeOnly)
      case Remove(_) => View(false, false, false)
      case _ => v
  }

  function ViewRun(v: View, i: nat, run: seq<Action>): (r: View)
    decreases run
  {
    if run == [] then v else ViewRun(ViewStep(v, i, run[0]), i, run[1..])
  }

  /** While a manager with a label stays, a resource that was not cleared before it never gets the
      label nor past the check, and it becomes a manager exactly through its own observe-only history: reported while
      watching, and not watching any more. */
  lemma {:induction false} LateManagerIff(s: State, run: seq<Action>, owner: nat, late: nat)
    requires owner in s.labelled && late != owner && late !in s.cleared && late !in s.labelled
    requires Remove(owner) !in run
    ensures var t, v := Exec(s, run), ViewRun(ViewOf(s, late), late, run);
            && late !in t.labelled && owner in t.labelled
            && (late in Managers(t) <==> v.reported && !v.watching)
    decreases run
  {
    if run != [] {
      assert run[0] in run;
      assert ViewOf(Step(s, run[0]), late) == ViewStep(ViewOf(s, late), late, run[0]);
      LateManagerIff(Step(s, run[0]), run[1..], owner, late);
    }
  }

  /** In particular one that is never switched to observe-only does not. */
  lemma {:induction false} NeverWatchedView(v: View, i: nat, run: seq<Action>)
    requires !v.looking && !v.reported && !v.watching && Switch(i, true) !in run
    ensures !ViewRun(v, i, run).reported
    decreases run
  {
    if run != [] {
      assert run[0] in run;
      NeverWatchedView(ViewStep(v, i, run[0]), i, run[1..]);
    }
  }

  lemma NoLateManager(s: State, run: seq<Action>, owner: nat, late: nat)
    requires owner in s.labelled && late != owner && late !in s.cleared && late !in s.labelled
    requires late !in s.looking + s.reported + s.watching
    requires Remove(owner) !in run && Switch(late, true) !in run
    ensures late !in Managers(Exec(s, run))
  {
    LateManagerIff(s, run, owner, late);
    NeverWatchedView(ViewOf(s, late), late, run);
  }
}
