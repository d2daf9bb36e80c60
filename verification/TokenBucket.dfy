/** The token-bucket rate limiter, and the rate bound it gives over every run and window. */
module TokenBucket {
  import opened Common

  datatype Limits_ = Limits(rate: real, capacity: int)

  type Limits = l: Limits_ | l.rate > 0.0 && l.capacity >= 1 witness Limits(1.0, 1)

  datatype Bucket = Bucket(tokens: real, updated: real)

  function Earned(l: Limits, from: real, to: real): real {
    (to - from) * l.rate
  }

  /** Tokens at time `now`, never more than the capacity. */
  function Refilled(l: Limits, b: Bucket, now: real): real {
    Min(l.capacity as real, b.tokens + Earned(l, b.updated, now))
  }

  /** One call: the clock reads `now`, and if it has to sleep it wakes at `wake`. */
  datatype Call = Call(now: real, wake: real)

  /** The clock does not run backwards, and a sleep lasts at least as long as asked. */
  predicate Timely(l: Limits, b: Bucket, c: Call) {
    && c.now >= b.updated
    && (Refilled(l, b, c.now) < 1.0 ==> c.wake >= c.now + (1.0 - Refilled(l, b, c.now)) / l.rate)
  }

  function GrantedAt(l: Limits, b: Bucket, c: Call): real {
    if Refilled(l, b, c.now) < 1.0 then c.wake else c.now
  }

  function AfterGrant(l: Limits, b: Bucket, c: Call): Bucket {
    var tokens := Refilled(l, b, c.now);
    if tokens < 1.0 then Bucket(0.0, c.wake) else Bucket(tokens - 1.0, c.now)
  }

  class TokenBucketRateLimiter {
    const limits: Limits
    var tokens: real
    var updated: real

    function State(): Bucket
      reads this
    {
      Bucket(tokens, updated)
    }

    constructor (limits: Limits, now: real)
      ensures this.limits == limits && State() == Bucket(limits.capacity as real, now)
    {
      this.limits := limits;
      tokens, updated := limits.capacity as real, now;
    }

    method Acquire(c: Call) returns (granted: real)
      requires Timely(limits, State(), c)
      modifies this
      ensures State() == AfterGrant(limits, old(State()), c) && granted == GrantedAt(limits, old(State()), c)
      ensures granted == updated
    {
      tokens := Min(limits.capacity as real, tokens + Earned(limits, updated, c.now));
      updated := c.now;
      if tokens < 1.0 {
        updated := c.wake;
        tokens := 0.0;
      } else {
        tokens := tokens - 1.0;
      }
      granted := updated;
    }
  }

  // ---------- Runs ----------

  /** The grant times of a run, from a full bucket. */
  ghost predicate Runs(l: Limits, b: Bucket, calls: seq<Call>)
    decreases |calls|
  {
    calls == [] || (Timely(l, b, calls[0]) && Runs(l, AfterGrant(l, b, calls[0]), calls[1..]))
  }

  function Grants(l: Limits, b: Bucket, calls: seq<Call>): seq<real>
    decreases |calls|
  {
    if calls == [] then [] else [GrantedAt(l, b, calls[0])] + Grants(l, AfterGrant(l, b, calls[0]), calls[1..])
  }

  predicate Sane(l: Limits, b: Bucket) {
    0.0 <= b.tokens <= l.capacity as real
  }

  lemma {:induction false} EarnedSplits(l: Limits, a: real, b: real, c: real)
    ensures Earned(l, a, c) == Earned(l, a, b) + Earned(l, b, c)
    ensures a <= b ==> Earned(l, a, b) >= 0.0
  {
    Distribute(b - a, c - b, l.rate);
    if a < b {
      MulLess(0.0, b - a, l.rate);
    }
  }

  lemma {:induction false} SleepEarns(l: Limits, now: real, wake: real, tokens: real)
    requires tokens < 1.0 && wake >= now + (1.0 - tokens) / l.rate
    ensures wake >= now && tokens + Earned(l, now, wake) >= 1.0
  {
    var gap := (1.0 - tokens) / l.rate;
    assert gap * l.rate == 1.0 - tokens;
    assert gap >= 0.0;
    MulLess(gap, wake - now, l.rate);
  }

  /** A grant takes a token that was really earned. */
  lemma {:induction false} GrantCosts(l: Limits, b: Bucket, c: Call)
    requires Sane(l, b) && Timely(l, b, c)
    ensures var b' := AfterGrant(l, b, c);
            && Sane(l, b') && b'.updated == GrantedAt(l, b, c) >= b.updated
            && b'.tokens <= b.tokens + Earned(l, b.updated, b'.updated) - 1.0
            && b'.tokens <= l.capacity as real - 1.0
  {
    var tokens := Refilled(l, b, c.now);
    EarnedSplits(l, b.updated, c.now, c.wake);
    if tokens < 1.0 {
      SleepEarns(l, c.now, c.wake, tokens);
    }
  }

  /** Counting from the current bucket: the grants up to `end` are paid by its tokens and what is earned until then. */
  lemma {:induction false} PaidByTokens(l: Limits, b: Bucket, calls: seq<Call>, n: nat)
    requires Sane(l, b) && Runs(l, b, calls) && n < |calls|
    ensures |Grants(l, b, calls)| == |calls|
    ensures Grants(l, b, calls)[n] >= b.updated
    ensures (n + 1) as real <= b.tokens + Earned(l, b.updated, Grants(l, b, calls)[n])
    decreases n
  {
    GrantsLength(l, b, calls);
    var b' := AfterGrant(l, b, calls[0]);
    GrantCosts(l, b, calls[0]);
    if n > 0 {
      PaidByTokens(l, b', calls[1..], n - 1);
      EarnedSplits(l, b.updated, b'.updated, Grants(l, b', calls[1..])[n - 1]);
    }
  }

  lemma {:induction false} GrantsLength(l: Limits, b: Bucket, calls: seq<Call>)
    ensures |Grants(l, b, calls)| == |calls|
    decreases |calls|
  {
    if calls != [] {
      GrantsLength(l, AfterGrant(l, b, calls[0]), calls[1..]);
    }
  }

  /** Over every run: from the i-th to the j-th grant there are at most capacity + rate * time grants. */
  lemma {:induction false} RateBound(l: Limits, b: Bucket, calls: seq<Call>, i: nat, j: nat)
    requires Sane(l, b) && Runs(l, b, calls) && i <= j < |calls|
    ensures |Grants(l, b, calls)| == |calls|
    ensures Grants(l, b, calls)[i] <= Grants(l, b, calls)[j]
    ensures (j - i + 1) as real <= l.capacity as real + Earned(l, Grants(l, b, calls)[i], Grants(l, b, calls)[j])
    decreases i
  {
    GrantsLength(l, b, calls);
    var b' := AfterGrant(l, b, calls[0]);
    GrantCosts(l, b, calls[0]);
    if i > 0 {
      RateBound(l, b', calls[1..], i - 1, j - 1);
    } else if j > 0 {
      PaidByTokens(l, b', calls[1..], j - 1);
    } else {
      assert Earned(l, b'.updated, b'.updated) == 0.0;
    }
  }

  // ---------- Windows ----------

  function CountIn(grants: seq<real>, from: real, to: real): nat {
    if grants == [] then 0
    else CountIn(grants[..|grants| - 1], from, to) + if from <= grants[|grants| - 1] <= to then 1 else 0
  }

  lemma {:induction false} CountBefore(grants: seq<real>, from: real, to: real)
    requires forall k :: 0 <= k < |grants| ==> grants[k] < from
    ensures CountIn(grants, from, to) == 0
  {
    if grants != [] {
      CountBefore(grants[..|grants| - 1], from, to);
    }
  }

  /** At most the grants from index `i` on are inside, when all before it are too early. */
  lemma {:induction false} CountFrom(grants: seq<real>, from: real, to: real, i: nat)
    requires i <= |grants| && forall k :: 0 <= k < i ==> grants[k] < from
    ensures CountIn(grants, from, to) <= |grants| - i
  {
    if i == |grants| {
      CountBefore(grants, from, to);
    } else {
      CountFrom(grants[..|grants| - 1], from, to, i);
    }
  }

  lemma {:induction false} FirstInside(grants: seq<real>, from: real, n: nat) returns (i: nat)
    requires n < |grants| && grants[n] >= from
    ensures i <= n && grants[i] >= from && forall k :: 0 <= k < i ==> grants[k] < from
  {
    i := 0;
    while grants[i] < from
      invariant i <= n && forall k :: 0 <= k < i ==> grants[k] < from
      decreases n - i
    {
      i := i + 1;
    }
  }

  lemma {:induction false} EarnedGrows(l: Limits, a: real, b: real, c: real, d: real)
    requires a <= b && c <= d
    ensures Earned(l, b, c) <= Earned(l, a, d)
  {
    if c - b < d - a {
      MulLess(c - b, d - a, l.rate);
    }
  }

  lemma {:induction false} WindowBoundUpTo(l: Limits, b: Bucket, calls: seq<Call>, from: real, to: real, n: nat)
    requires Sane(l, b) && Runs(l, b, calls) && from <= to && n <= |calls| == |Grants(l, b, calls)|
    ensures CountIn(Grants(l, b, calls)[..n], from, to) as real <= l.capacity as real + Earned(l, from, to)
  {
    var g := Grants(l, b, calls);
    if n == 0 {
      EarnedSplits(l, from, to, to);
    } else if !(from <= g[n - 1] <= to) {
      assert g[..n][..n - 1] == g[..n - 1];
      WindowBoundUpTo(l, b, calls, from, to, n - 1);
    } else {
      var i := FirstInside(g, from, n - 1);
      CountFrom(g[..n], from, to, i);
      RateBound(l, b, calls, i, n - 1);
      EarnedGrows(l, from, g[i], g[n - 1], to);
    }
  }

  /** Over any run and any window of length T, at most capacity + rate * T acquisitions are granted. */
  lemma {:induction false} WindowBound(l: Limits, start: real, calls: seq<Call>, from: real, length: real)
    requires length >= 0.0 && Runs(l, Bucket(l.capacity as real, start), calls)
    ensures CountIn(Grants(l, Bucket(l.capacity as real, start), calls), from, from + length) as real
            <= l.capacity as real + length * l.rate
  {
    var b := Bucket(l.capacity as real, start);
    GrantsLength(l, b, calls);
    WindowBoundUpTo(l, b, calls, from, from + length, |calls|);
    assert Grants(l, b, calls)[..|calls|] == Grants(l, b, calls);
    assert Earned(l, from, from + length) == length * l.rate;
  }

  // ---------- No needless waiting ----------

  /** A call is granted at once if and only if a whole token is there: what was left and what was earned since. */
  lemma {:induction false} GrantedAtOnceExactly(l: Limits, b: Bucket, c: Call)
    requires Sane(l, b) && Timely(l, b, c)
    ensures b.tokens + Earned(l, b.updated, c.now) >= 1.0 ==> GrantedAt(l, b, c) == c.now
    ensures b.tokens + Earned(l, b.updated, c.now) < 1.0 ==> GrantedAt(l, b, c) == c.wake > c.now && AfterGrant(l, b, c).tokens == 0.0
    ensures b.tokens + Earned(l, b.updated, c.now) >= l.capacity as real ==> AfterGrant(l, b, c).tokens == l.capacity as real - 1.0
    ensures 1.0 <= b.tokens + Earned(l, b.updated, c.now) <= l.capacity as real ==>
              AfterGrant(l, b, c).tokens == b.tokens + Earned(l, b.updated, c.now) - 1.0
  {
    var tokens := Refilled(l, b, c.now);
    if tokens < 1.0 {
      var gap := (1.0 - tokens) / l.rate;
      assert gap * l.rate == 1.0 - tokens;
      if gap <= 0.0 {
        MulLess(gap, 0.0, l.rate);
      }
    }
  }

  /** Every call comes at least 1 / rate after the grant before it. */
  ghost predicate Spaced(l: Limits, b: Bucket, calls: seq<Call>)
    decreases |calls|
  {
    calls == [] || (calls[0].now >= b.updated + 1.0 / l.rate && Spaced(l, AfterGrant(l, b, calls[0]), calls[1..]))
  }

  lemma {:induction false} PeriodEarnsOne(l: Limits, from: real, to: real)
    requires to >= from + 1.0 / l.rate
    ensures Earned(l, from, to) >= 1.0
  {
    var period := 1.0 / l.rate;
    assert period * l.rate == 1.0;
    MulLess(period, to - from, l.rate);
  }

  /** A caller that keeps to the rate never waits, over any run and from any bucket. */
  lemma {:induction false} SteadyCallsNeverWait(l: Limits, b: Bucket, calls: seq<Call>, n: nat)
    requires Sane(l, b) && Runs(l, b, calls) && Spaced(l, b, calls) && n < |calls|
    ensures |Grants(l, b, calls)| == |calls| && Grants(l, b, calls)[n] == calls[n].now
    decreases n
  {
    GrantsLength(l, b, calls);
    PeriodEarnsOne(l, b.updated, calls[0].now);
    GrantedAtOnceExactly(l, b, calls[0]);
    if n > 0 {
      GrantCosts(l, b, calls[0]);
      SteadyCallsNeverWait(l, AfterGrant(l, b, calls[0]), calls[1..], n - 1);
    }
  }

  /** From a full bucket, the first `capacity` calls never wait, however close together. */
  lemma {:induction false} BurstNeverWaits(l: Limits, b: Bucket, calls: seq<Call>, n: nat)
    requires Sane(l, b) && Runs(l, b, calls) && n < |calls| && (n + 1) as real <= b.tokens
    ensures |Grants(l, b, calls)| == |calls| && Grants(l, b, calls)[n] == calls[n].now
    decreases n
  {
    GrantsLength(l, b, calls);
    EarnedSplits(l, b.updated, calls[0].now, calls[0].now);
    GrantedAtOnceExactly(l, b, calls[0]);
    if n > 0 {
      GrantCosts(l, b, calls[0]);
      BurstNeverWaits(l, AfterGrant(l, b, calls[0]), calls[1..], n - 1);
    }
  }
}
