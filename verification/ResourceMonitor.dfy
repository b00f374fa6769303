/** Resource monitors (api/v1alpha1/resourcemonitor_types.go): the trigger limits. */
module ResourceMonitor {
  import opened Strings
  import opened CommonSpec

  /** The trigger actions; Go's string type can hold any other text as well. */
  datatype Action = Notify | Suspend | SuspendImmediate | OtherAction(text: string)

  datatype Trigger = Trigger(threshold: int, action: Action)

  datatype Spec = Spec(
    common: Common, name: string, frequency: Option<string>, startTimestamp: Option<string>, triggers: seq<Trigger>)

  datatype Problem =
    NameRequired | FrequencyWithoutStart
    | TooManyNotify(n: nat) | TooManySuspend(n: nat) | TooManySuspendImmediate(n: nat)
    | CommonProblems(problems: seq<CommonProblem>)

  function Count(triggers: seq<Trigger>, action: Action): (n: nat) {
    if triggers == [] then 0 else (if triggers[0].action == action then 1 else 0) + Count(triggers[1..], action)
  }

  lemma {:induction false} CountConcat(a: seq<Trigger>, b: seq<Trigger>, action: Action)
    ensures Count(a + b, action) == Count(a, action) + Count(b, action)
  {
    if a == [] {
      assert a + b == b;
    } else {
      assert (a + b)[1..] == a[1..] + b;
      CountConcat(a[1..], b, action);
    }
  }

  lemma CountSnoc(triggers: seq<Trigger>, i: nat, action: Action)
    requires i < |triggers|
    ensures Count(triggers[..i + 1], action)
         == Count(triggers[..i], action) + if triggers[i].action == action then 1 else 0
  {
    assert triggers[..i + 1] == triggers[..i] + [triggers[i]];
    assert [triggers[i]][1..] == [];
    CountConcat(triggers[..i], [triggers[i]], action);
  }

  /** The counting loop. */
  method CountTriggers(triggers: seq<Trigger>) returns (notify: nat, suspend: nat, immediate: nat)
    ensures notify == Count(triggers, Notify)
    ensures suspend == Count(triggers, Suspend)
    ensures immediate == Count(triggers, SuspendImmediate)
  {
    notify, suspend, immediate := 0, 0, 0;
    for i := 0 to |triggers|
      invariant notify == Count(triggers[..i], Notify)
      invariant suspend == Count(triggers[..i], Suspend)
      invariant immediate == Count(triggers[..i], SuspendImmediate)
    {
      var t := triggers[i];
      CountSnoc(triggers, i, Notify);
      CountSnoc(triggers, i, Suspend);
      CountSnoc(triggers, i, SuspendImmediate);
      if t.action == Notify {
        notify := notify + 1;
      } else if t.action == Suspend {
        suspend := suspend + 1;
      } else if t.action == SuspendImmediate {
        immediate := immediate + 1;
      }
    }
    assert triggers[..|triggers|] == triggers;
  }

  predicate LimitExceeded(triggers: seq<Trigger>, p: Problem) {
    match p
    case TooManyNotify(n) => n == Count(triggers, Notify) > 5
    case TooManySuspend(n) => n == Count(triggers, Suspend) > 1
    case TooManySuspendImmediate(n) => n == Count(triggers, SuspendImmediate) > 1
    case _ => false
  }

  predicate WithinLimits(triggers: seq<Trigger>) {
    Count(triggers, Notify) <= 5 && Count(triggers, Suspend) <= 1 && Count(triggers, SuspendImmediate) <= 1
  }

  ghost predicate Acceptable(s: Spec) {
    && s.name != "" && s.frequency.Some? == s.startTimestamp.Some?
    && WithinLimits(s.triggers) && CommonAcceptable(s.common)
  }

  /** The trigger part of `Validate`: exactly the exceeded limits, each with its count. */
  method ValidateTriggers(triggers: seq<Trigger>) returns (errs: seq<Problem>)
    ensures forall p :: p in errs <==> LimitExceeded(triggers, p)
    ensures errs == [] <==> WithinLimits(triggers)
  {
    errs := [];
    if |triggers| > 0 {
      var notify, suspend, immediate := CountTriggers(triggers);
      if notify > 5 {
        errs := errs + [TooManyNotify(notify)];
      }
      if suspend > 1 {
        errs := errs + [TooManySuspend(suspend)];
      }
      if immediate > 1 {
        errs := errs + [TooManySuspendImmediate(immediate)];
      }
    }
  }

  /** `ResourceMonitorSpec.Validate`. */
  method Validate(s: Spec) returns (errs: seq<Problem>)
    ensures errs == [] <==> Acceptable(s)
    ensures forall p :: LimitExceeded(s.triggers, p) ==> p in errs
    ensures NameRequired in errs <==> s.name == ""
    ensures FrequencyWithoutStart in errs <==> s.frequency.Some? != s.startTimestamp.Some?
  {
    errs := [];
    if s.name == "" {
      errs := errs + [NameRequired];
    }
    if s.frequency.Some? != s.startTimestamp.Some? {
      errs := errs + [FrequencyWithoutStart];
    }
    var limits := ValidateTriggers(s.triggers);
    assert forall p :: p in limits ==> LimitExceeded(s.triggers, p);
    errs := errs + limits;
    var common := ValidateCommon(s.common);
    if common != [] {
      errs := errs + [CommonProblems(common)];
    }
  }

  /** The order of the triggers does not matter. */
  lemma OrderIrrelevant(s: Spec, triggers: seq<Trigger>)
    requires multiset(triggers) == multiset(s.triggers)
    ensures Acceptable(s) <==> Acceptable(s.(triggers := triggers))
  {
    SameCount(s.triggers, triggers, Notify);
    SameCount(s.triggers, triggers, Suspend);
    SameCount(s.triggers, triggers, SuspendImmediate);
  }

  lemma {:induction false} SameCount(a: seq<Trigger>, b: seq<Trigger>, action: Action)
    requires multiset(a) == multiset(b)
    ensures Count(a, action) == Count(b, action)
    decreases a
  {
    if a == [] {
      assert |multiset(a)| == 0 == |multiset(b)| == |b|;
    } else {
      var x, y := Around(a[0], b);
      assert a == [a[0]] + a[1..];
      Removed(a[0], a[1..], x, y);
      SameCount(a[1..], x + y, action);
      CountAround(a[0], a[1..], x, y, action);
    }
  }

  /** What stands before and after a trigger. */
  lemma Around(t: Trigger, b: seq<Trigger>) returns (x: seq<Trigger>, y: seq<Trigger>)
    requires t in multiset(b)
    ensures b == x + [t] + y
  {
    var i :| 0 <= i < |b| && b[i] == t;
    x, y := b[..i], b[i + 1..];
  }

  lemma CountAround(t: Trigger, a: seq<Trigger>, x: seq<Trigger>, y: seq<Trigger>, action: Action)
    requires Count(a, action) == Count(x + y, action)
    ensures Count([t] + a, action) == Count(x + [t] + y, action)
  {
    CountConcat([t], a, action);
    CountConcat(x, [t], action);
    CountConcat(x + [t], y, action);
    CountConcat(x, y, action);
  }

  /** One trigger less on both sides. */
  lemma Removed(t: Trigger, a: seq<Trigger>, x: seq<Trigger>, y: seq<Trigger>)
    requires multiset([t] + a) == multiset(x + [t] + y)
    ensures multiset(a) == multiset(x + y)
  {
    Without([], t, a);
    assert [] + [t] + a == [t] + a && [] + a == a;
    Without(x, t, y);
    Cancel(multiset(a), multiset(x + y), multiset{t});
  }

  lemma Cancel(a: multiset<Trigger>, b: multiset<Trigger>, c: multiset<Trigger>)
    requires a + c == b + c
    ensures a == b
  {
    assert (a + c) - c == a && (b + c) - c == b;
  }

  lemma Without(x: seq<Trigger>, t: Trigger, y: seq<Trigger>)
    ensures multiset(x + [t] + y) == multiset(x + y) + multiset{t}
  {
  }

  /** The CRD's enum on a trigger's action. */
  predicate KnownAction(t: Trigger) {
    !t.action.OtherAction?
  }

  /** No trigger with a known action goes uncounted. */
  lemma {:induction false} CountsConserved(triggers: seq<Trigger>)
    requires forall t :: t in triggers ==> KnownAction(t)
    ensures Count(triggers, Notify) + Count(triggers, Suspend) + Count(triggers, SuspendImmediate) == |triggers|
  {
    if triggers != [] {
      assert KnownAction(triggers[0]);
      CountsConserved(triggers[1..]);
    }
  }

  /** So an accepted monitor has at most seven triggers. */
  lemma AtMostSeven(s: Spec)
    requires (forall t :: t in s.triggers ==> KnownAction(t)) && Acceptable(s)
    ensures |s.triggers| <= 7
  {
    CountsConserved(s.triggers);
  }
}
