/** The per-provider circuit breaker (internal/circuitbreaker/breaker.go).

    `ProviderBreaker` and the step functions say what one locked call does to one
    provider; `Breaker` is the object with its map; the lemmas are about whole histories
    of calls.  Times and durations are nanoseconds; the clock and the jitter are
    parameters. */
module CircuitBreaker {

  datatype BreakerState = Closed | Open | HalfOpen

  datatype Options = Options(threshold: int, resetTimeout: int, maxResetTimeout: int, probeTimeout: int)

  /** `providerBreaker`; the initial times are Go's zero time, taken as 0. */
  datatype ProviderBreaker = ProviderBreaker(
    state: BreakerState, failures: int, lastFailure: int, probing: bool, probeStarted: int, timeout: int)

  const SECOND := 1_000_000_000

  /** What `New` makes of the options it is given. */
  function Normalize(o: Options): (r: Options)
    ensures WellFormed(r)
    ensures WellFormed(o) ==> r == o
  {
    var threshold := if o.threshold <= 0 then 5 else o.threshold;
    var reset := if o.resetTimeout <= 0 then 60 * SECOND else o.resetTimeout;
    var max := if o.maxResetTimeout <= 0 then 15 * 60 * SECOND else o.maxResetTimeout;
    var probe := if o.probeTimeout <= 0 then 30 * SECOND else o.probeTimeout;
    Options(threshold, reset, if max < reset then reset else max, probe)
  }

  /** The defaults: five failures, a minute, a quarter of an hour, half a minute. */
  lemma Defaults(o: Options)
    ensures var r := Normalize(o);
            && r.threshold == (if o.threshold > 0 then o.threshold else 5)
            && r.resetTimeout == (if o.resetTimeout > 0 then o.resetTimeout else 60_000_000_000)
            && r.maxResetTimeout >= (if o.maxResetTimeout > 0 then o.maxResetTimeout else 900_000_000_000)
            && (r.maxResetTimeout > r.resetTimeout ==>
                r.maxResetTimeout == if o.maxResetTimeout > 0 then o.maxResetTimeout else 900_000_000_000)
            && r.probeTimeout == (if o.probeTimeout > 0 then o.probeTimeout else 30_000_000_000)
  {
  }

  predicate WellFormed(o: Options) {
    o.threshold > 0 && 0 < o.resetTimeout <= o.maxResetTimeout && o.probeTimeout > 0
  }

  // ---------------------------------------------------------------- one call on one provider

  function Fresh(o: Options): (pb: ProviderBreaker) {
    ProviderBreaker(Closed, 0, 0, false, 0, o.resetTimeout)
  }

  /** `Allow`: `now` is the clock at the check, `later` the clock when a probe is stamped. */
  function AllowStep(o: Options, pb: ProviderBreaker, now: int, later: int): (r: (ProviderBreaker, bool)) {
    match pb.state
    case Closed => (pb, true)
    case Open =>
      if now - pb.lastFailure >= pb.timeout
      then (pb.(state := HalfOpen, probing := true, probeStarted := later), true)
      else (pb, false)
    case HalfOpen =>
      if pb.probing && now - pb.probeStarted < o.probeTimeout then (pb, false)
      else (pb.(probing := true, probeStarted := later), true)
  }

  function SuccessStep(o: Options, pb: ProviderBreaker): (r: ProviderBreaker) {
    pb.(failures := 0, state := Closed, probing := false, timeout := o.resetTimeout)
  }

  /** The jitter is at most 20% of the doubled timeout, either way. */
  predicate JitterOk(base: int, jitter: int) {
    -base <= 5 * jitter <= base
  }

  function Min(a: int, b: int): (m: int) {
    if a <= b then a else b
  }

  function FailureStep(o: Options, pb: ProviderBreaker, now: int, jitter: int): (r: ProviderBreaker) {
    var counted := pb.(failures := pb.failures + 1, lastFailure := now, probing := false);
    if counted.failures < o.threshold then counted
    else if pb.state.HalfOpen?
    then counted.(state := Open, timeout := Min(2 * pb.timeout + jitter, o.maxResetTimeout))
    else counted.(state := Open)
  }

  // ---------------------------------------------------------------- the object

  class Breaker {
    var breakers: map<string, ProviderBreaker>
    const opts: Options

    constructor (o: Options)
      ensures opts == Normalize(o) && breakers == map[]
    {
      opts := Normalize(o);
      breakers := map[];
    }

    /** The entry of a provider, or the one `getOrCreate` would make. */
    function Entry(provider: string): (pb: ProviderBreaker)
      reads this
    {
      if provider in breakers then breakers[provider] else Fresh(opts)
    }

    method GetOrCreate(provider: string) returns (pb: ProviderBreaker)
      modifies this`breakers
      ensures pb == old(Entry(provider))
      ensures breakers == old(breakers)[provider := pb]
    {
      if provider !in breakers {
        breakers := breakers[provider := Fresh(opts)];
      }
      pb := breakers[provider];
    }

    /** True when the call may proceed, false for `ErrCircuitOpen`. */
    method Allow(provider: string, now: int, later: int) returns (ok: bool)
      modifies this`breakers
      ensures var r := AllowStep(opts, old(Entry(provider)), now, later);
              ok == r.1 && breakers == old(breakers)[provider := r.0]
    {
      var pb := GetOrCreate(provider);
      if pb.state.Closed? {
        return true;
      } else if pb.state.Open? {
        if now - pb.lastFailure >= pb.timeout {
          pb := pb.(state := HalfOpen);
          pb := pb.(probing := true);
          pb := pb.(probeStarted := later);
          breakers := breakers[provider := pb];
          return true;
        }
        return false;
      } else {
        if pb.probing {
          if now - pb.probeStarted < opts.probeTimeout {
            return false;
          }
        }
        pb := pb.(probing := true);
        pb := pb.(probeStarted := later);
        breakers := breakers[provider := pb];
        return true;
      }
    }

    method RecordSuccess(provider: string)
      modifies this`breakers
      ensures breakers == old(breakers)[provider := SuccessStep(opts, old(Entry(provider)))]
    {
      var pb := GetOrCreate(provider);
      pb := pb.(failures := 0);
      pb := pb.(state := Closed);
      pb := pb.(probing := false);
      pb := pb.(timeout := opts.resetTimeout);
      breakers := breakers[provider := pb];
    }

    method RecordFailure(provider: string, now: int, jitter: int)
      modifies this`breakers
      ensures breakers == old(breakers)[provider := FailureStep(opts, old(Entry(provider)), now, jitter)]
    {
      var pb := GetOrCreate(provider);
      var wasHalfOpen := pb.state.HalfOpen?;
      pb := pb.(failures := pb.failures + 1);
      pb := pb.(lastFailure := now);
      pb := pb.(probing := false);
      if pb.failures >= opts.threshold {
        pb := pb.(state := Open);
        if wasHalfOpen {
          var base := pb.timeout * 2;
          pb := pb.(timeout := Min(base + jitter, opts.maxResetTimeout));
        }
      }
      breakers := breakers[provider := pb];
    }

    /** `State`: an open breaker whose timeout has run out already reads as half-open,
        which is exactly when the next `Allow` lets a probe through. */
    method State(provider: string, now: int) returns (st: BreakerState)
      ensures st.Closed? <==> Entry(provider).state.Closed?
      ensures Entry(provider).state.HalfOpen? ==> st.HalfOpen?
      ensures Entry(provider).state.Open? ==>
              (st.HalfOpen? <==> AllowStep(opts, Entry(provider), now, now).1)
    {
      if provider in breakers {
        var pb := breakers[provider];
        if pb.state.Open? && now - pb.lastFailure >= pb.timeout {
          return HalfOpen;
        }
        return pb.state;
      }
      return Closed;
    }

    method Reset(provider: string)
      modifies this`breakers
      ensures breakers == old(breakers) - {provider}
    {
      breakers := breakers - {provider};
    }
  }

  // ---------------------------------------------------------------- histories

  datatype Call =
    | Allow(now: int, later: int)
    | Success
    | Failure(now: int, jitter: int)
    | Reset

  function Do(o: Options, pb: ProviderBreaker, c: Call): (r: ProviderBreaker) {
    match c
    case Allow(now, later) => AllowStep(o, pb, now, later).0
    case Success => SuccessStep(o, pb)
    case Failure(now, jitter) => FailureStep(o, pb, now, jitter)
    case Reset => Fresh(o)
  }

  function Run(o: Options, pb: ProviderBreaker, h: seq<Call>): (r: ProviderBreaker)
    decreases h
  {
    if h == [] then pb else Run(o, Do(o, pb, h[0]), h[1..])
  }

  /** The jitter actually drawn at each failure respects its bound. */
  predicate JitterBounded(o: Options, pb: ProviderBreaker, h: seq<Call>)
    decreases h
  {
    h == [] ||
    ((h[0].Failure? && pb.state.HalfOpen? ==> JitterOk(2 * pb.timeout, h[0].jitter)) &&
     JitterBounded(o, Do(o, pb, h[0]), h[1..]))
  }

  /** What every reachable breaker satisfies. */
  predicate Invariant(o: Options, pb: ProviderBreaker) {
    && pb.failures >= 0
    && (pb.state.Closed? <==> pb.failures < o.threshold)
    && (pb.probing <==> pb.state.HalfOpen?)
    && o.resetTimeout <= pb.timeout <= o.maxResetTimeout
    && (pb.state.Closed? ==> pb.timeout == o.resetTimeout)
  }

  lemma InvariantStep(o: Options, pb: ProviderBreaker, c: Call)
    requires WellFormed(o) && Invariant(o, pb)
    requires c.Failure? && pb.state.HalfOpen? ==> JitterOk(2 * pb.timeout, c.jitter)
    ensures Invariant(o, Do(o, pb, c))
  {
  }

  lemma {:induction false} InvariantRun(o: Options, pb: ProviderBreaker, h: seq<Call>)
    requires WellFormed(o) && Invariant(o, pb) && JitterBounded(o, pb, h)
    ensures Invariant(o, Run(o, pb, h))
    decreases h
  {
    if h != [] {
      InvariantStep(o, pb, h[0]);
      InvariantRun(o, Do(o, pb, h[0]), h[1..]);
    }
  }

  /** The number of failures since the last success or reset, `n` having gone before. */
  function FailuresSince(n: int, h: seq<Call>): (k: int)
    decreases h
  {
    if h == [] then n
    else FailuresSince(match h[0]
                       case Failure(_, _) => n + 1
                       case Success => 0
                       case Reset => 0
                       case Allow(_, _) => n, h[1..])
  }

  /** The breaker in one line: after any history it is closed if and only if fewer than
      `threshold` failures have come in since the last success or reset. */
  lemma ClosedIffFewFailures(o: Options, h: seq<Call>)
    requires WellFormed(o) && JitterBounded(o, Fresh(o), h)
    ensures Run(o, Fresh(o), h).state.Closed? <==> FailuresSince(0, h) < o.threshold
  {
    InvariantRun(o, Fresh(o), h);
    CountsFailures(o, Fresh(o), h);
  }

  lemma {:induction false} CountsFailures(o: Options, pb: ProviderBreaker, h: seq<Call>)
    ensures Run(o, pb, h).failures == FailuresSince(pb.failures, h)
    decreases h
  {
    if h != [] { CountsFailures(o, Do(o, pb, h[0]), h[1..]); }
  }

  // ---------------------------------------------------------------- admission

  /** The earliest time at which a tripped breaker lets the next call through. */
  function Barrier(o: Options, pb: ProviderBreaker): (t: int) {
    if pb.state.Open? then pb.lastFailure + pb.timeout else pb.probeStarted + o.probeTimeout
  }

  /** A call passes if and only if the breaker is closed or the barrier is reached. */
  lemma AllowIff(o: Options, pb: ProviderBreaker, now: int, later: int)
    requires Invariant(o, pb)
    ensures AllowStep(o, pb, now, later).1 <==> pb.state.Closed? || now >= Barrier(o, pb)
  {
  }

  /** A stretch of calls with no success or reset, on a clock that does not run back. */
  predicate Outage(t: int, h: seq<Call>)
    decreases h
  {
    h == [] ||
    match h[0]
    case Allow(now, later) => t <= now <= later && Outage(later, h[1..])
    case Failure(now, _) => t <= now && Outage(now, h[1..])
    case Success => false
    case Reset => false
  }

  /** The times at which calls were let through. */
  function Admitted(o: Options, pb: ProviderBreaker, h: seq<Call>): (ts: seq<int>)
    decreases h
  {
    if h == [] then []
    else
      (if h[0].Allow? && AllowStep(o, pb, h[0].now, h[0].later).1 then [h[0].now] else []) +
      Admitted(o, Do(o, pb, h[0]), h[1..])
  }

  /** How far apart probes are kept. */
  function Spacing(o: Options): (d: int) {
    Min(o.probeTimeout, o.resetTimeout)
  }

  /** Any two times in the list are at least `d` apart per position between them. */
  predicate Apart(ts: seq<int>, d: int) {
    forall i, j :: 0 <= i < j < |ts| ==> ts[j] - ts[i] >= (j - i) * d
  }

  /** After a call admitted at `floor`, or any other lower bound, the next ones come one
      spacing apart at the least. */
  lemma {:induction false} FirstAdmitted(o: Options, pb: ProviderBreaker, t: int, floor: int, h: seq<Call>)
    requires WellFormed(o) && Invariant(o, pb) && JitterBounded(o, pb, h) && !pb.state.Closed?
    requires Outage(t, h) && floor <= t && floor + Spacing(o) <= Barrier(o, pb)
    ensures forall i :: 0 <= i < |Admitted(o, pb, h)| ==>
            Admitted(o, pb, h)[i] >= floor + (i + 1) * Spacing(o)
    decreases h
  {
    if h != [] {
      var c := h[0];
      var pb' := Do(o, pb, c);
      InvariantStep(o, pb, c);
      var rest := Admitted(o, pb', h[1..]);
      if c.Allow? && AllowStep(o, pb, c.now, c.later).1 {
        AllowIff(o, pb, c.now, c.later);
        FirstAdmitted(o, pb', c.later, c.now, h[1..]);
        var d := Spacing(o);
        forall i | 0 <= i < |Admitted(o, pb, h)|
          ensures Admitted(o, pb, h)[i] >= floor + (i + 1) * d
        {
          if i > 0 {
            assert rest[i - 1] >= c.now + i * d;
            assert floor + (i + 1) * d == floor + d + i * d;
          }
        }
      } else {
        assert Admitted(o, pb, h) == rest;
        FirstAdmitted(o, pb', if c.Allow? then c.later else c.now, floor, h[1..]);
      }
    }
  }

  /** Short-circuiting, over any outage: from the moment the breaker has tripped until the
      next success or reset, the calls it lets through are pairwise as far apart as their
      rank demands, so at most one per `min(probeTimeout, resetTimeout)`. */
  lemma {:induction false} ProbesSpaced(o: Options, pb: ProviderBreaker, t: int, h: seq<Call>)
    requires WellFormed(o) && Invariant(o, pb) && JitterBounded(o, pb, h) && !pb.state.Closed?
    requires Outage(t, h)
    ensures Apart(Admitted(o, pb, h), Spacing(o))
    decreases h
  {
    if h != [] {
      var c := h[0];
      var pb' := Do(o, pb, c);
      InvariantStep(o, pb, c);
      var rest := Admitted(o, pb', h[1..]);
      ProbesSpaced(o, pb', if c.Allow? then c.later else c.now, h[1..]);
      if c.Allow? && AllowStep(o, pb, c.now, c.later).1 {
        FirstAdmitted(o, pb', c.later, c.now, h[1..]);
        var ts, d := Admitted(o, pb, h), Spacing(o);
        assert ts == [c.now] + rest;
        forall i, j | 0 <= i < j < |ts| ensures ts[j] - ts[i] >= (j - i) * d {
          if i == 0 {
            assert rest[j - 1] >= c.now + (j - 1 + 1) * d;
          } else {
            assert rest[j - 1] - rest[i - 1] >= ((j - 1) - (i - 1)) * d;
            assert (j - 1) - (i - 1) == j - i;
          }
        }
      } else {
        assert Admitted(o, pb, h) == rest;
      }
    }
  }

  /** During an outage no call passes before `floor` if the clock or the barrier of an open breaker is
      there already. */
  lemma {:induction false} NoneBefore(o: Options, pb: ProviderBreaker, t: int, floor: int, h: seq<Call>)
    requires WellFormed(o) && Invariant(o, pb) && JitterBounded(o, pb, h) && !pb.state.Closed?
    requires Outage(t, h) && (floor <= t || (pb.state.Open? && pb.lastFailure <= t && floor <= Barrier(o, pb)))
    ensures forall i :: 0 <= i < |Admitted(o, pb, h)| ==> Admitted(o, pb, h)[i] >= floor
    decreases h
  {
    if h != [] {
      var c := h[0];
      var pb' := Do(o, pb, c);
      InvariantStep(o, pb, c);
      if c.Allow? {
        AllowIff(o, pb, c.now, c.later);
      }
      NoneBefore(o, pb', if c.Allow? then c.later else c.now, floor, h[1..]);
    }
  }

  /** Tripping takes effect: a failure that leaves the breaker tripped blocks every call for at least
      the reset timeout from that failure on, until a success or reset. */
  lemma TrippedBlocks(o: Options, pb: ProviderBreaker, now: int, jitter: int, h: seq<Call>)
    requires WellFormed(o) && Invariant(o, pb) && (pb.state.HalfOpen? ==> JitterOk(2 * pb.timeout, jitter))
    requires var pb' := Do(o, pb, Failure(now, jitter));
             !pb'.state.Closed? && JitterBounded(o, pb', h) && Outage(now, h)
    ensures var pb' := Do(o, pb, Failure(now, jitter));
            forall i :: 0 <= i < |Admitted(o, pb', h)| ==> Admitted(o, pb', h)[i] >= now + o.resetTimeout
  {
    InvariantStep(o, pb, Failure(now, jitter));
    NoneBefore(o, Do(o, pb, Failure(now, jitter)), now, now + o.resetTimeout, h);
  }

  // ---------------------------------------------------------------- backoff

  function Pow(b: nat, n: nat): (p: nat) {
    if n == 0 then 1 else b * Pow(b, n - 1)
  }

  /** How many probes failed: failures recorded while half-open. */
  function ProbeFailures(o: Options, pb: ProviderBreaker, h: seq<Call>): (n: nat)
    decreases h
  {
    if h == [] then 0
    else (if h[0].Failure? && pb.state.HalfOpen? then 1 else 0) + ProbeFailures(o, Do(o, pb, h[0]), h[1..])
  }

  lemma ScaleUp(p: nat, q: nat, t: int, t1: int, t0: int, a: int, b: int)
    requires p * t >= q * t1 && a * t1 >= b * t0 && a >= 0
    ensures (a * p) * t >= (b * q) * t0
  {
  }

  /** Exponential backoff despite the jitter: after `k` failed probes in an outage the
      timeout is capped or has grown at least by (8/5)^k, and at most by (12/5)^k. */
  lemma {:induction false} BackoffGrows(o: Options, pb: ProviderBreaker, t: int, h: seq<Call>)
    requires WellFormed(o) && Invariant(o, pb) && JitterBounded(o, pb, h) && Outage(t, h)
    ensures var k, after := ProbeFailures(o, pb, h), Run(o, pb, h).timeout;
            && (after == o.maxResetTimeout || Pow(5, k) * after >= Pow(8, k) * pb.timeout)
            && Pow(5, k) * after <= Pow(12, k) * pb.timeout
            && after >= pb.timeout
    decreases h
  {
    if h != [] {
      var c := h[0];
      var pb' := Do(o, pb, c);
      InvariantStep(o, pb, c);
      BackoffGrows(o, pb', if c.Allow? then c.later else c.now, h[1..]);
      if c.Failure? && pb.state.HalfOpen? {
        var k := ProbeFailures(o, pb', h[1..]);
        var after := Run(o, pb, h).timeout;
        InvariantRun(o, pb', h[1..]);
        assert 5 * pb'.timeout <= 12 * pb.timeout;
        BackoffUpper(k, after, pb'.timeout, pb.timeout);
        if pb'.timeout == o.maxResetTimeout {
          assert after == o.maxResetTimeout;
        } else {
          assert 5 * pb'.timeout >= 8 * pb.timeout;
          if after != o.maxResetTimeout {
            ScaleUp(Pow(5, k), Pow(8, k), after, pb'.timeout, pb.timeout, 5, 8);
          }
        }
      }
    }
  }

  lemma BackoffUpper(k: nat, after: int, mid: int, before: int)
    requires Pow(5, k) * after <= Pow(12, k) * mid && 5 * mid <= 12 * before
    ensures Pow(5, k + 1) * after <= Pow(12, k + 1) * before
  {
  }

  // ---------------------------------------------------------------- providers are independent

  function EntryOf(o: Options, m: map<string, ProviderBreaker>, p: string): (pb: ProviderBreaker) {
    if p in m then m[p] else Fresh(o)
  }

  /** One call of the object, on its whole map. */
  function DoAt(o: Options, m: map<string, ProviderBreaker>, p: string, c: Call): (r: map<string, ProviderBreaker>) {
    if c.Reset? then m - {p} else m[p := Do(o, EntryOf(o, m, p), c)]
  }

  function RunAll(o: Options, m: map<string, ProviderBreaker>, h: seq<(string, Call)>): (r: map<string, ProviderBreaker>)
    decreases h
  {
    if h == [] then m else RunAll(o, DoAt(o, m, h[0].0, h[0].1), h[1..])
  }

  function CallsOf(p: string, h: seq<(string, Call)>): (r: seq<Call>)
    decreases h
  {
    if h == [] then [] else (if h[0].0 == p then [h[0].1] else []) + CallsOf(p, h[1..])
  }

  /** However the calls of all providers interleave, each provider sees only its own. */
  lemma {:induction false} ProvidersIndependent(
    o: Options, m: map<string, ProviderBreaker>, h: seq<(string, Call)>, p: string)
    ensures EntryOf(o, RunAll(o, m, h), p) == Run(o, EntryOf(o, m, p), CallsOf(p, h))
    decreases h
  {
    if h != [] {
      ProvidersIndependent(o, DoAt(o, m, h[0].0, h[0].1), h[1..], p);
      var rest := CallsOf(p, h[1..]);
      if h[0].0 == p {
        assert ([h[0].1] + rest)[1..] == rest;
      } else {
        assert [] + rest == rest;
      }
    }
  }
}
