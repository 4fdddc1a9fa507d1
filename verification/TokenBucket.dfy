/** The token bucket, over the reals: what it admits, characterised without its state. */
module TokenBucket {

  function Min(a: real, b: real): real { if a < b then a else b }

  /** The bucket: rate and capacity, the tokens it holds, and when it was last refilled. */
  datatype State = State(rate: real, capacity: real, tokens: real, last: real)

  function Init(rate: real, capacity: real, now: real): State {
    State(rate, capacity, capacity, now)
  }

  function Refill(s: State, now: real): State {
    s.(tokens := Min(s.tokens + (now - s.last) * s.rate, s.capacity), last := now)
  }

  predicate Admits(s: State, now: real) {
    Refill(s, now).tokens >= 1.0
  }

  function AfterAllow(s: State, now: real): State {
    var s1 := Refill(s, now);
    if s1.tokens >= 1.0 then s1.(tokens := s1.tokens - 1.0) else s1
  }

  /** A negative capacity leaves the capacity as it is. */
  function AfterSetRate(s: State, now: real, rate: real, capacity: real): State {
    var s1 := Refill(s, now).(rate := rate);
    var s2 := if capacity >= 0.0 then s1.(capacity := capacity) else s1;
    s2.(tokens := Min(s2.tokens, s2.capacity))
  }

  // ---------- queries change nothing ----------

  datatype Event = Ask(at: real) | Query(at: real)

  /** The answers to the requests among the events. */
  function Answers(s: State, events: seq<Event>): seq<bool>
    decreases |events|
  {
    if events == [] then []
    else
      match events[0]
      case Ask(t) => [Admits(s, t)] + Answers(AfterAllow(s, t), events[1..])
      case Query(t) => Answers(Refill(s, t), events[1..])
  }

  function Requests(events: seq<Event>): seq<Event> {
    if events == [] then []
    else (if events[0].Ask? then [events[0]] else []) + Requests(events[1..])
  }

  /** The steady clock never goes back. */
  ghost predicate Steady(start: real, events: seq<Event>)
    decreases |events|
  {
    events == [] || (start <= events[0].at && Steady(events[0].at, events[1..]))
  }

  lemma ProductNonNegative(a: real, b: real)
    requires a >= 0.0 && b >= 0.0
    ensures a * b >= 0.0
  {
  }

  /** Refilling at t and again at t' is refilling at t'. */
  lemma RefillTwice(s: State, t: real, t': real)
    requires s.last <= t <= t' && s.rate >= 0.0
    ensures Refill(Refill(s, t), t') == Refill(s, t')
  {
    var a, b := (t - s.last) * s.rate, (t' - t) * s.rate;
    assert (t' - s.last) * s.rate == a + b;
    ProductNonNegative(t - s.last, s.rate);
    ProductNonNegative(t' - t, s.rate);
  }

  /** A refill in between changes no later answer. */
  lemma {:induction false} RefillUnseen(s: State, t: real, events: seq<Event>)
    requires s.last <= t && s.rate >= 0.0 && Steady(t, events)
    ensures Answers(Refill(s, t), events) == Answers(s, events)
  {
    if events != [] {
      RefillTwice(s, t, events[0].at);
    }
  }

  /** Calls of availableTokens, whenever they come, change no decision. */
  lemma {:induction false} QueriesUnseen(s: State, events: seq<Event>)
    requires s.rate >= 0.0 && Steady(s.last, events)
    ensures Answers(s, events) == Answers(s, Requests(events))
    decreases |events|
  {
    if events != [] {
      match events[0]
      case Ask(t) =>
        QueriesUnseen(AfterAllow(s, t), events[1..]);
        assert ([events[0]] + Requests(events[1..]))[1..] == Requests(events[1..]);
      case Query(t) =>
        QueriesUnseen(Refill(s, t), events[1..]);
        RequestsSteady(t, events[1..]);
        RefillUnseen(s, t, Requests(events[1..]));
        assert [] + Requests(events[1..]) == Requests(events[1..]);
    }
  }

  lemma {:induction false} RequestsSteady(start: real, events: seq<Event>)
    requires Steady(start, events)
    ensures Steady(start, Requests(events))
    decreases |events|
  {
    if events != [] {
      RequestsSteady(events[0].at, events[1..]);
      assert ([events[0]] + Requests(events[1..]))[1..] == Requests(events[1..]);
      assert [] + Requests(events[1..]) == Requests(events[1..]);
    }
  }

  // ---------- a level cut off at its capacity ----------

  /** How many of the requests j, ..., n - 1 were admitted. */
  function Count(admitted: seq<bool>, j: nat, n: nat): nat
    requires j <= n <= |admitted|
    decreases n
  {
    if n == j then 0 else Count(admitted, j, n - 1) + (if admitted[n - 1] then 1 else 0)
  }

  function Spent(admitted: bool): real { if admitted then 1.0 else 0.0 }

  /** What is left for call n of a bucket that was full at call j; caps[i] is the capacity at call i, and earned[i] what
      the rate gives up to it. */
  function Budget(caps: seq<real>, earned: seq<real>, admitted: seq<bool>, j: nat, n: nat): real
    requires j <= n < |earned| == |admitted| == |caps|
  {
    caps[j] + (earned[n] - earned[j]) - Count(admitted, j, n) as real
  }

  /** The level one call finds, from the level the call before it found and the gain in between. */
  ghost predicate Next(cap: real, level: real, admitted: bool, earned: real, earned': real, level': real) {
    level' == Min(level - Spent(admitted) + (earned' - earned), cap)
  }

  ghost predicate Linked(caps: seq<real>, earned: seq<real>, levels: seq<real>, admitted: seq<bool>, i: nat)
    requires i + 1 < |earned| == |levels| == |admitted| == |caps|
  {
    Next(caps[i + 1], levels[i], admitted[i], earned[i], earned[i + 1], levels[i + 1])
  }

  /** The levels that calls find in a bucket that starts full and spends a token on each admitted request; asks[i] tells
      whether call i is a request. */
  ghost predicate Follows(caps: seq<real>, earned: seq<real>, levels: seq<real>, asks: seq<bool>, admitted: seq<bool>) {
    && |levels| == |admitted| == |asks| == |earned| == |caps| > 0 && levels[0] == caps[0]
    && (forall i :: 0 <= i < |levels| ==> (admitted[i] <==> asks[i] && levels[i] >= 1.0))
    && (forall i :: 0 <= i < |levels| - 1 ==> Linked(caps, earned, levels, admitted, i))
  }

  lemma {:induction false} BelowEveryBudget(caps: seq<real>, earned: seq<real>, levels: seq<real>, asks: seq<bool>,
                                            admitted: seq<bool>, j: nat, n: nat)
    requires Follows(caps, earned, levels, asks, admitted) && j <= n < |levels|
    ensures levels[n] <= Budget(caps, earned, admitted, j, n)
    decreases n
  {
    if n > 0 {
      assert Linked(caps, earned, levels, admitted, n - 1);
      if j < n {
        BelowEveryBudget(caps, earned, levels, asks, admitted, j, n - 1);
      }
    }
  }

  lemma {:induction false} EqualsSomeBudget(caps: seq<real>, earned: seq<real>, levels: seq<real>, asks: seq<bool>,
                                            admitted: seq<bool>, n: nat)
    returns (j: nat)
    requires Follows(caps, earned, levels, asks, admitted) && n < |levels|
    ensures j <= n && levels[n] == Budget(caps, earned, admitted, j, n)
    decreases n
  {
    if n == 0 || levels[n] == caps[n] {
      j := n;
    } else {
      assert Linked(caps, earned, levels, admitted, n - 1);
      j := EqualsSomeBudget(caps, earned, levels, asks, admitted, n - 1);
    }
  }

  lemma {:induction false} NeverNegative(caps: seq<real>, earned: seq<real>, levels: seq<real>, asks: seq<bool>,
                                         admitted: seq<bool>, n: nat)
    requires Follows(caps, earned, levels, asks, admitted) && n < |levels| && NonDecreasing(earned)
    requires forall i :: 0 <= i < |caps| ==> caps[i] >= 0.0
    ensures levels[n] >= 0.0
    decreases n
  {
    if n > 0 {
      assert Linked(caps, earned, levels, admitted, n - 1);
      NeverNegative(caps, earned, levels, asks, admitted, n - 1);
    }
  }

  // ---------- exactly which requests are admitted ----------

  ghost predicate NonDecreasing(xs: seq<real>) {
    forall i, j :: 0 <= i <= j < |xs| ==> xs[i] <= xs[j]
  }

  /** The decisions on requests at the given times. */
  function Decisions(s: State, times: seq<real>): (admitted: seq<bool>)
    ensures |admitted| == |times|
    decreases |times|
  {
    if times == [] then [] else [Admits(s, times[0])] + Decisions(AfterAllow(s, times[0]), times[1..])
  }

  function Levels(s: State, times: seq<real>): (levels: seq<real>)
    ensures |levels| == |times|
    decreases |times|
  {
    if times == [] then [] else [Refill(s, times[0]).tokens] + Levels(AfterAllow(s, times[0]), times[1..])
  }

  ghost predicate EarnsAt(rate: real, t: real, e: real) { e == t * rate }

  ghost predicate Earns(rate: real, times: seq<real>, earned: seq<real>) {
    |earned| == |times| && forall i :: 0 <= i < |times| ==> EarnsAt(rate, times[i], earned[i])
  }

  /** What the rate gives up to each time, counted from the clock's zero. */
  function Earned(rate: real, times: seq<real>): (earned: seq<real>)
    ensures Earns(rate, times, earned)
  {
    seq(|times|, i requires 0 <= i < |times| => times[i] * rate)
  }

  lemma GainSplits(rate: real, t: real, t': real)
    ensures (t' - t) * rate == t' * rate - t * rate
  {
  }

  lemma EarnedGrows(rate: real, t: real, t': real)
    requires rate >= 0.0 && t <= t'
    ensures t * rate <= t' * rate
  {
    GainSplits(rate, t, t');
    ProductNonNegative(t' - t, rate);
  }

  /** The second request finds what the first one left, refilled. */
  lemma SecondLevel(s: State, t: real, t': real, e: real, e': real)
    requires EarnsAt(s.rate, t, e) && EarnsAt(s.rate, t', e')
    ensures Next(s.capacity, Refill(s, t).tokens, Admits(s, t), e, e', Refill(AfterAllow(s, t), t').tokens)
  {
    GainSplits(s.rate, t, t');
  }

  lemma LevelsAt(s: State, times: seq<real>)
    requires |times| >= 2
    ensures Levels(s, times)[0] == Refill(s, times[0]).tokens
    ensures Levels(s, times)[1] == Refill(AfterAllow(s, times[0]), times[1]).tokens
  {
    assert Levels(s, times)[1] == Levels(AfterAllow(s, times[0]), times[1..])[0];
  }

  lemma TailLinked(caps: seq<real>, earned: seq<real>, levels: seq<real>, admitted: seq<bool>, k: real, a: real,
                   b: real, c: bool, i: nat)
    requires i + 1 < |earned| == |levels| == |admitted| == |caps| && Linked(caps, earned, levels, admitted, i)
    ensures Linked([k] + caps, [a] + earned, [b] + levels, [c] + admitted, i + 1)
  {
    assert ([a] + earned)[i + 2] == earned[i + 1] && ([b] + levels)[i + 2] == levels[i + 1];
    assert ([k] + caps)[i + 2] == caps[i + 1];
  }

  lemma HeadLinked(caps: seq<real>, earned: seq<real>, levels: seq<real>, admitted: seq<bool>,
                   k: real, e: real, e': real, l: real, l': real, d: bool)
    requires |earned| == |levels| == |admitted| == |caps| >= 2 && caps[1] == k
    requires earned[0] == e && earned[1] == e' && levels[0] == l && levels[1] == l' && admitted[0] == d
    requires Next(k, l, d, e, e', l')
    ensures Linked(caps, earned, levels, admitted, 0)
  {
  }

  function Same<T>(x: T, n: nat): (xs: seq<T>)
    ensures |xs| == n && forall i :: 0 <= i < n ==> xs[i] == x
  {
    seq(n, _ => x)
  }

  lemma FirstLinked(s: State, times: seq<real>, earned: seq<real>, caps: seq<real>)
    requires |times| >= 2 && Earns(s.rate, times, earned) && caps == Same(s.capacity, |times|)
    ensures Linked(caps, earned, Levels(s, times), Decisions(s, times), 0)
  {
    var t, t' := times[0], times[1];
    SecondLevel(s, t, t', earned[0], earned[1]);
    LevelsAt(s, times);
    HeadLinked(caps, earned, Levels(s, times), Decisions(s, times), s.capacity, earned[0], earned[1],
               Refill(s, t).tokens, Refill(AfterAllow(s, t), t').tokens, Admits(s, t));
  }

  lemma {:induction false} AllLinked(s: State, times: seq<real>, earned: seq<real>, caps: seq<real>, i: nat)
    requires i + 1 < |times| && Earns(s.rate, times, earned) && caps == Same(s.capacity, |times|)
    ensures Linked(caps, earned, Levels(s, times), Decisions(s, times), i)
    decreases i
  {
    if i == 0 {
      FirstLinked(s, times, earned, caps);
    } else {
      var s1, rest := AfterAllow(s, times[0]), times[1..];
      assert caps[1..] == Same(s.capacity, |rest|);
      AllLinked(s1, rest, earned[1..], caps[1..], i - 1);
      assert [earned[0]] + earned[1..] == earned && [caps[0]] + caps[1..] == caps;
      TailLinked(caps[1..], earned[1..], Levels(s1, rest), Decisions(s1, rest),
                 caps[0], earned[0], Refill(s, times[0]).tokens, Admits(s, times[0]), i - 1);
    }
  }

  lemma {:induction false} AdmittedByLevel(s: State, times: seq<real>, i: nat)
    requires i < |times|
    ensures Decisions(s, times)[i] <==> Levels(s, times)[i] >= 1.0
    decreases i
  {
    if i > 0 {
      AdmittedByLevel(AfterAllow(s, times[0]), times[1..], i - 1);
    }
  }

  lemma StartsFull(rate: real, capacity: real, start: real, times: seq<real>)
    requires rate >= 0.0 && times != [] && start <= times[0]
    ensures Levels(Init(rate, capacity, start), times)[0] == capacity
  {
    ProductNonNegative(times[0] - start, rate);
  }

  lemma BucketFollows(rate: real, capacity: real, start: real, times: seq<real>)
    requires rate >= 0.0 && times != [] && start <= times[0]
    ensures var s := Init(rate, capacity, start);
            Follows(Same(capacity, |times|), Earned(rate, times), Levels(s, times), Same(true, |times|),
                    Decisions(s, times))
  {
    var s := Init(rate, capacity, start);
    StartsFull(rate, capacity, start, times);
    forall i | 0 <= i < |times| ensures Decisions(s, times)[i] <==> Levels(s, times)[i] >= 1.0 {
      AdmittedByLevel(s, times, i);
    }
    forall i | 0 <= i < |times| - 1
      ensures Linked(Same(capacity, |times|), Earned(rate, times), Levels(s, times), Decisions(s, times), i)
    {
      AllLinked(s, times, Earned(rate, times), Same(capacity, |times|), i);
    }
  }

  /** Call n has a token left in the budget of every earlier call. */
  ghost predicate Affordable(caps: seq<real>, earned: seq<real>, admitted: seq<bool>, n: nat)
    requires n < |earned| == |admitted| == |caps|
  {
    forall j :: 0 <= j <= n ==> Budget(caps, earned, admitted, j, n) >= 1.0
  }

  /** Call n, if it is a request, is admitted exactly when, for every call j up to n, a bucket full at j has a token
      left: the capacity at j, plus what was earned from j to n, minus the admissions from j on is at least 1. */
  ghost predicate Exact(caps: seq<real>, earned: seq<real>, asks: seq<bool>, admitted: seq<bool>) {
    && |admitted| == |asks| == |earned| == |caps|
    && forall n :: 0 <= n < |earned| ==> (admitted[n] <==> asks[n] && Affordable(caps, earned, admitted, n))
  }

  lemma FollowsExact(caps: seq<real>, earned: seq<real>, levels: seq<real>, asks: seq<bool>, admitted: seq<bool>)
    requires Follows(caps, earned, levels, asks, admitted)
    ensures Exact(caps, earned, asks, admitted)
  {
    forall n | 0 <= n < |earned| ensures admitted[n] <==> asks[n] && Affordable(caps, earned, admitted, n) {
      forall j | 0 <= j <= n ensures levels[n] <= Budget(caps, earned, admitted, j, n) {
        BelowEveryBudget(caps, earned, levels, asks, admitted, j, n);
      }
      var least := EqualsSomeBudget(caps, earned, levels, asks, admitted, n);
      assert levels[n] == Budget(caps, earned, admitted, least, n);
    }
  }

  /** The bucket's decisions meet the characterisation, for all request times: C + r t_n - r t_j minus the admissions
      from j on is at least 1. */
  lemma DecisionsExact(rate: real, capacity: real, start: real, times: seq<real>)
    requires rate >= 0.0 && (times != [] ==> start <= times[0])
    ensures Exact(Same(capacity, |times|), Earned(rate, times), Same(true, |times|),
                  Decisions(Init(rate, capacity, start), times))
  {
    if times != [] {
      var s := Init(rate, capacity, start);
      BucketFollows(rate, capacity, start, times);
      FollowsExact(Same(capacity, |times|), Earned(rate, times), Levels(s, times), Same(true, |times|),
                   Decisions(s, times));
    }
  }

  lemma {:induction false} CountSame(a: seq<bool>, b: seq<bool>, j: nat, n: nat)
    requires j <= n <= |a| == |b| && a[..n] == b[..n]
    ensures Count(a, j, n) == Count(b, j, n)
    decreases n
  {
    if j < n {
      assert a[n - 1] == a[..n][n - 1] && b[n - 1] == b[..n][n - 1];
      assert a[..n - 1] == a[..n][..n - 1] && b[..n - 1] == b[..n][..n - 1];
      CountSame(a, b, j, n - 1);
    }
  }

  lemma BudgetSame(caps: seq<real>, earned: seq<real>, a: seq<bool>, b: seq<bool>, n: nat)
    requires n < |earned| == |a| == |b| == |caps| && a[..n] == b[..n]
    ensures Affordable(caps, earned, a, n) <==> Affordable(caps, earned, b, n)
  {
    forall j | 0 <= j <= n ensures Budget(caps, earned, a, j, n) == Budget(caps, earned, b, j, n) {
      CountSame(a, b, j, n);
    }
  }

  lemma {:induction false} ExactPrefix(caps: seq<real>, earned: seq<real>, asks: seq<bool>, a: seq<bool>, b: seq<bool>,
                                       n: nat)
    requires Exact(caps, earned, asks, a) && Exact(caps, earned, asks, b) && n <= |earned|
    ensures a[..n] == b[..n]
    decreases n
  {
    if n > 0 {
      ExactPrefix(caps, earned, asks, a, b, n - 1);
      BudgetSame(caps, earned, a, b, n - 1);
      assert a[..n] == a[..n - 1] + [a[n - 1]] && b[..n] == b[..n - 1] + [b[n - 1]];
    }
  }

  /** The characterisation leaves no choice: it holds of one sequence of decisions only. */
  lemma ExactUnique(caps: seq<real>, earned: seq<real>, asks: seq<bool>, a: seq<bool>, b: seq<bool>)
    requires Exact(caps, earned, asks, a) && Exact(caps, earned, asks, b)
    ensures a == b
  {
    ExactPrefix(caps, earned, asks, a, b, |earned|);
    assert a[..|earned|] == a && b[..|earned|] == b;
  }

  lemma FollowsWindow(caps: seq<real>, earned: seq<real>, levels: seq<real>, asks: seq<bool>, admitted: seq<bool>,
                      j: nat, n: nat)
    requires Follows(caps, earned, levels, asks, admitted) && j <= n < |levels| && NonDecreasing(earned)
    requires forall i :: 0 <= i < |caps| ==> caps[i] >= 0.0
    ensures Count(admitted, j, n + 1) as real <= caps[j] + (earned[n] - earned[j])
  {
    NeverNegative(caps, earned, levels, asks, admitted, n);
    BelowEveryBudget(caps, earned, levels, asks, admitted, j, n);
  }

  lemma EarnedNonDecreasing(rate: real, times: seq<real>)
    requires rate >= 0.0 && NonDecreasing(times)
    ensures NonDecreasing(Earned(rate, times))
  {
    var earned := Earned(rate, times);
    forall i, j | 0 <= i <= j < |earned| ensures earned[i] <= earned[j] {
      assert EarnsAt(rate, times[i], earned[i]) && EarnsAt(rate, times[j], earned[j]);
      EarnedGrows(rate, times[i], times[j]);
    }
  }

  /** No window of requests admits more than C + r d of them. */
  lemma WindowBound(rate: real, capacity: real, start: real, times: seq<real>, j: nat, n: nat)
    requires rate >= 0.0 && capacity >= 0.0 && j <= n < |times| && NonDecreasing(times) && start <= times[0]
    ensures Count(Decisions(Init(rate, capacity, start), times), j, n + 1) as real <=
            capacity + (Earned(rate, times)[n] - Earned(rate, times)[j])
  {
    var s := Init(rate, capacity, start);
    BucketFollows(rate, capacity, start, times);
    EarnedNonDecreasing(rate, times);
    FollowsWindow(Same(capacity, |times|), Earned(rate, times), Levels(s, times), Same(true, |times|),
                  Decisions(s, times), j, n);
  }

  // ---------- a bucket whose rate and capacity change ----------

  datatype Call = AskAt(at: real) | SetAt(at: real, rate: real, capacity: real)

  function AfterCall(s: State, c: Call): State {
    match c
    case AskAt(t) => AfterAllow(s, t)
    case SetAt(t, rate, capacity) => AfterSetRate(s, t, rate, capacity)
  }

  /** Which of the calls are requests that are admitted. */
  function Decided(s: State, calls: seq<Call>): (admitted: seq<bool>)
    ensures |admitted| == |calls|
    decreases |calls|
  {
    if calls == [] then []
    else [calls[0].AskAt? && Admits(s, calls[0].at)] + Decided(AfterCall(s, calls[0]), calls[1..])
  }

  function Asking(calls: seq<Call>): (asks: seq<bool>)
    ensures |asks| == |calls|
  {
    if calls == [] then [] else [calls[0].AskAt?] + Asking(calls[1..])
  }

  /** The capacity that a call leaves in force: a negative one changes nothing. */
  function CapAfter(capacity: real, c: Call): real {
    if c.SetAt? && c.capacity >= 0.0 then c.capacity else capacity
  }

  function RateAfter(rate: real, c: Call): real {
    if c.SetAt? then c.rate else rate
  }

  /** The capacity at each call: of the one before it and the one after it, the smaller. */
  function CapsOf(capacity: real, calls: seq<Call>): (caps: seq<real>)
    ensures |caps| == |calls|
    decreases |calls|
  {
    if calls == [] then []
    else [Min(capacity, CapAfter(capacity, calls[0]))] + CapsOf(CapAfter(capacity, calls[0]), calls[1..])
  }

  function Gained(e: real, rate: real, last: real, now: real): real {
    e + (now - last) * rate
  }

  /** What has been earned up to each call, each stretch of time at the rate then in force. */
  function EarnedBy(rate: real, last: real, e: real, calls: seq<Call>): (earned: seq<real>)
    ensures |earned| == |calls|
    decreases |calls|
  {
    if calls == [] then []
    else
      [Gained(e, rate, last, calls[0].at)]
      + EarnedBy(RateAfter(rate, calls[0]), calls[0].at, Gained(e, rate, last, calls[0].at), calls[1..])
  }

  /** The level that a call finds or, if it changes the capacity, leaves. */
  function LevelAt(s: State, c: Call): real {
    Min(Refill(s, c.at).tokens, CapAfter(s.capacity, c))
  }

  function LevelsOf(s: State, calls: seq<Call>): (levels: seq<real>)
    ensures |levels| == |calls|
    decreases |calls|
  {
    if calls == [] then [] else [LevelAt(s, calls[0])] + LevelsOf(AfterCall(s, calls[0]), calls[1..])
  }

  /** s has just dealt with a call at which the level was found. */
  ghost predicate Left(s: State, level: real, admitted: bool) {
    s.tokens == level - Spent(admitted) && level <= s.capacity
  }

  lemma CallLeaves(s: State, c: Call)
    ensures var s' := AfterCall(s, c);
            && Left(s', LevelAt(s, c), c.AskAt? && Admits(s, c.at))
            && s'.rate == RateAfter(s.rate, c) && s'.capacity == CapAfter(s.capacity, c) && s'.last == c.at
            && (c.AskAt? ==> (Admits(s, c.at) <==> LevelAt(s, c) >= 1.0))
  {
  }

  lemma NextFollows(s: State, level: real, admitted: bool, e: real, c: Call)
    requires Left(s, level, admitted)
    ensures Next(Min(s.capacity, CapAfter(s.capacity, c)), level, admitted, e, Gained(e, s.rate, s.last, c.at),
                 LevelAt(s, c))
  {
  }

  /** As Follows, from any first level. */
  ghost predicate Chained(caps: seq<real>, earned: seq<real>, levels: seq<real>, asks: seq<bool>, admitted: seq<bool>) {
    && |levels| == |admitted| == |asks| == |earned| == |caps|
    && (forall i :: 0 <= i < |levels| ==> (admitted[i] <==> asks[i] && levels[i] >= 1.0))
    && (forall i :: 0 <= i < |levels| - 1 ==> Linked(caps, earned, levels, admitted, i))
  }

  lemma ConsChained(caps: seq<real>, earned: seq<real>, levels: seq<real>, asks: seq<bool>, admitted: seq<bool>,
                    k: real, e: real, level: real, ask: bool, d: bool)
    requires Chained(caps, earned, levels, asks, admitted) && (d <==> ask && level >= 1.0)
    requires caps != [] ==> Next(caps[0], level, d, e, earned[0], levels[0])
    ensures Chained([k] + caps, [e] + earned, [level] + levels, [ask] + asks, [d] + admitted)
  {
    var caps', earned', levels', admitted' := [k] + caps, [e] + earned, [level] + levels, [d] + admitted;
    forall i | 0 <= i < |levels'| - 1 ensures Linked(caps', earned', levels', admitted', i) {
      if i > 0 {
        assert Linked(caps, earned, levels, admitted, i - 1);
        TailLinked(caps, earned, levels, admitted, k, e, level, d, i - 1);
      }
    }
  }

  lemma CallsUnfold(s: State, e: real, calls: seq<Call>, s': State, e': real)
    requires calls != [] && s' == AfterCall(s, calls[0]) && e' == Gained(e, s.rate, s.last, calls[0].at)
    ensures CapsOf(s.capacity, calls) == [Min(s.capacity, s'.capacity)] + CapsOf(s'.capacity, calls[1..])
    ensures EarnedBy(s.rate, s.last, e, calls) == [e'] + EarnedBy(s'.rate, s'.last, e', calls[1..])
    ensures LevelsOf(s, calls) == [LevelAt(s, calls[0])] + LevelsOf(s', calls[1..])
    ensures Asking(calls) == [calls[0].AskAt?] + Asking(calls[1..])
    ensures Decided(s, calls) == [calls[0].AskAt? && Admits(s, calls[0].at)] + Decided(s', calls[1..])
  {
    CallLeaves(s, calls[0]);
  }

  /** The next call, if there is one, goes on from the level found. */
  lemma NextCall(s: State, level: real, admitted: bool, e: real, calls: seq<Call>)
    requires Left(s, level, admitted) && calls != []
    ensures Next(CapsOf(s.capacity, calls)[0], level, admitted, e, EarnedBy(s.rate, s.last, e, calls)[0],
                 LevelsOf(s, calls)[0])
  {
    NextFollows(s, level, admitted, e, calls[0]);
  }

  lemma {:induction false} CallsChained(s: State, e: real, calls: seq<Call>)
    ensures Chained(CapsOf(s.capacity, calls), EarnedBy(s.rate, s.last, e, calls), LevelsOf(s, calls), Asking(calls),
                    Decided(s, calls))
    decreases |calls|
  {
    if calls != [] {
      var c, s', e' := calls[0], AfterCall(s, calls[0]), Gained(e, s.rate, s.last, calls[0].at);
      var d := c.AskAt? && Admits(s, c.at);
      CallLeaves(s, c);
      CallsUnfold(s, e, calls, s', e');
      CallsChained(s', e', calls[1..]);
      if calls[1..] != [] {
        NextCall(s', LevelAt(s, c), d, e', calls[1..]);
      }
      ConsChained(CapsOf(s'.capacity, calls[1..]), EarnedBy(s'.rate, s'.last, e', calls[1..]),
                  LevelsOf(s', calls[1..]), Asking(calls[1..]), Decided(s', calls[1..]),
                  Min(s.capacity, s'.capacity), e', LevelAt(s, c), c.AskAt?, d);
    }
  }

  /** The decisions of a bucket whose rate and capacity change, whatever the times, the rates and the capacities: with
      the construction as the first call, a request is admitted exactly when a bucket full at any earlier call, with
      the capacity then in force and the gain since then counted piecewise, has a token left. */
  lemma ChangesExact(rate: real, capacity: real, start: real, calls: seq<Call>)
    ensures Exact([capacity] + CapsOf(capacity, calls), [0.0] + EarnedBy(rate, start, 0.0, calls),
                  [false] + Asking(calls), [false] + Decided(Init(rate, capacity, start), calls))
  {
    var s := Init(rate, capacity, start);
    CallsChained(s, 0.0, calls);
    if calls != [] {
      NextCall(s, capacity, false, 0.0, calls);
    }
    ConsChained(CapsOf(capacity, calls), EarnedBy(rate, start, 0.0, calls), LevelsOf(s, calls), Asking(calls),
                Decided(s, calls), capacity, 0.0, capacity, false, false);
    FollowsExact([capacity] + CapsOf(capacity, calls), [0.0] + EarnedBy(rate, start, 0.0, calls),
                 [capacity] + LevelsOf(s, calls), [false] + Asking(calls), [false] + Decided(s, calls));
  }

  // ---------- the class ----------

  class Bucket {
    var rate: real
    var capacity: real
    var tokens: real
    var lastRefillTime: real

    function St(): State
      reads this
    {
      State(rate, capacity, tokens, lastRefillTime)
    }

    constructor (rate: real, capacity: real, now: real)
      ensures St() == Init(rate, capacity, now)
    {
      this.rate, this.capacity, tokens, lastRefillTime := rate, capacity, capacity, now;
    }

    method RefillAt(now: real)
      modifies this
      ensures St() == Refill(old(St()), now)
    {
      var elapsed := now - lastRefillTime;
      tokens := tokens + elapsed * rate;
      if tokens > capacity { tokens := capacity; }
      lastRefillTime := now;
    }

    method Allow(now: real) returns (ok: bool)
      modifies this
      ensures ok == Admits(old(St()), now) && St() == AfterAllow(old(St()), now)
    {
      RefillAt(now);
      if tokens >= 1.0 {
        tokens := tokens - 1.0;
        return true;
      }
      return false;
    }

    method SetRate(now: real, rate: real, capacity: real)
      modifies this
      ensures St() == AfterSetRate(old(St()), now, rate, capacity)
    {
      RefillAt(now);
      this.rate := rate;
      if capacity >= 0.0 { this.capacity := capacity; }
      if tokens > this.capacity { tokens := this.capacity; }
    }

    method AvailableTokens(now: real) returns (t: real)
      modifies this
      ensures St() == Refill(old(St()), now) && t == tokens
    {
      RefillAt(now);
      t := tokens;
    }
  }

  /** A new bucket asked at the given times admits exactly the requests with a token left in every budget. */
  method Replay(rate: real, capacity: real, start: real, times: seq<real>) returns (admitted: seq<bool>)
    requires rate >= 0.0 && (times != [] ==> start <= times[0])
    ensures Exact(Same(capacity, |times|), Earned(rate, times), Same(true, |times|), admitted)
  {
    var bucket := new Bucket(rate, capacity, start);
    ghost var s := bucket.St();
    admitted := [];
    for n := 0 to |times|
      invariant |admitted| == n
      invariant admitted + Decisions(bucket.St(), times[n..]) == Decisions(s, times)
    {
      assert times[n..][1..] == times[n + 1..];
      ghost var rest := Decisions(AfterAllow(bucket.St(), times[n]), times[n + 1..]);
      var ok := bucket.Allow(times[n]);
      assert admitted + ([ok] + rest) == admitted + [ok] + rest;
      admitted := admitted + [ok];
    }
    assert times[|times|..] == [] && admitted + [] == admitted;
    DecisionsExact(rate, capacity, start, times);
  }

  method Make(bucket: Bucket, c: Call) returns (ok: bool)
    modifies bucket
    ensures bucket.St() == AfterCall(old(bucket.St()), c) && ok == (c.AskAt? && Admits(old(bucket.St()), c.at))
  {
    ok := false;
    match c
    case AskAt(t) => ok := bucket.Allow(t);
    case SetAt(t, rate, capacity) => bucket.SetRate(t, rate, capacity);
  }

  /** The same for a bucket whose rate and capacity change in between. */
  method ReplayChanges(rate: real, capacity: real, start: real, calls: seq<Call>) returns (admitted: seq<bool>)
    ensures Exact([capacity] + CapsOf(capacity, calls), [0.0] + EarnedBy(rate, start, 0.0, calls),
                  [false] + Asking(calls), [false] + admitted)
  {
    var bucket := new Bucket(rate, capacity, start);
    ghost var s := bucket.St();
    admitted := [];
    for n := 0 to |calls|
      invariant |admitted| == n
      invariant admitted + Decided(bucket.St(), calls[n..]) == Decided(s, calls)
    {
      assert calls[n..][1..] == calls[n + 1..];
      ghost var rest := Decided(AfterCall(bucket.St(), calls[n]), calls[n + 1..]);
      var ok := Make(bucket, calls[n]);
      assert admitted + ([ok] + rest) == admitted + [ok] + rest;
      admitted := admitted + [ok];
    }
    assert calls[|calls|..] == [] && admitted + [] == admitted;
    ChangesExact(rate, capacity, start, calls);
  }
}
