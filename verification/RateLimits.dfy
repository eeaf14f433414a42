/**
 * The two fixed-window limiters: the in-memory one of api/src/api/middleware/rateLimit.ts and the
 * per-credential one of api/src/db/repository/ballotAccessTokens.repository.ts.
 */
module RateLimits {
  import opened Wrappers

  datatype Limits = Limits(windowMs: nat, max: nat)

  datatype Bucket = Bucket(count: nat, resetAt: nat)

  // ---- One key's bucket, never swept ----

  /** The request starts a new window. */
  predicate Opens(b: Option<Bucket>, now: nat) {
    b.None? || b.value.resetAt <= now
  }

  function Touch(limits: Limits, b: Option<Bucket>, now: nat): Bucket {
    if Opens(b, now) then Bucket(1, now + limits.windowMs) else Bucket(b.value.count + 1, b.value.resetAt)
  }

  predicate Admitted(limits: Limits, b: Option<Bucket>, now: nat) {
    Opens(b, now) || b.value.count + 1 <= limits.max
  }

  /** The bucket after the first n requests of one key. */
  function After(limits: Limits, times: seq<nat>, n: nat): Option<Bucket>
    requires n <= |times|
    decreases n
  {
    if n == 0 then None else Some(Touch(limits, After(limits, times, n - 1), times[n - 1]))
  }

  predicate Admits(limits: Limits, times: seq<nat>, n: nat)
    requires n < |times|
  {
    Admitted(limits, After(limits, times, n), times[n])
  }

  predicate OpensAt(limits: Limits, times: seq<nat>, n: nat)
    requires n < |times|
  {
    Opens(After(limits, times, n), times[n])
  }

  ghost predicate Nondecreasing(times: seq<nat>) {
    forall i, j :: 0 <= i < j < |times| ==> times[i] <= times[j]
  }

  function CountAdmitted(limits: Limits, times: seq<nat>, lo: nat, hi: nat): nat
    requires lo <= hi <= |times|
    decreases hi - lo
  {
    if lo == hi then 0
    else CountAdmitted(limits, times, lo, hi - 1) + (if Admits(limits, times, hi - 1) then 1 else 0)
  }

  /** The first request of a window always passes, so a maximum of zero still lets one through. */
  function Cap(limits: Limits): nat {
    if limits.max == 0 then 1 else limits.max
  }

  lemma {:induction false} CountSplit(limits: Limits, times: seq<nat>, lo: nat, mid: nat, hi: nat)
    requires lo <= mid <= hi <= |times|
    ensures CountAdmitted(limits, times, lo, hi) == CountAdmitted(limits, times, lo, mid) + CountAdmitted(limits, times, mid, hi)
    decreases hi - mid
  {
    hide Admits;
    if mid < hi {
      CountSplit(limits, times, lo, mid, hi - 1);
    }
  }

  /** Counting from any request of a window on, admissions stay within what the window has left. */
  lemma {:induction false} WithinWindow(limits: Limits, times: seq<nat>, lo: nat, hi: nat)
    requires lo < hi <= |times|
    requires forall n :: lo < n < hi ==> !OpensAt(limits, times, n)
    ensures After(limits, times, hi).value.count >= hi - lo
    ensures CountAdmitted(limits, times, lo, hi) <= Cap(limits)
    ensures CountAdmitted(limits, times, lo, hi) <= After(limits, times, hi).value.count
    decreases hi - lo
  {
    if lo + 1 < hi {
      WithinWindow(limits, times, lo, hi - 1);
      assert !OpensAt(limits, times, hi - 1);
    }
  }

  /** Two windows of one key start at least a window apart. */
  lemma {:induction false} WindowsApart(limits: Limits, times: seq<nat>, p: nat, n: nat)
    requires p < n < |times| && OpensAt(limits, times, p) && OpensAt(limits, times, n)
    ensures times[p] + limits.windowMs <= times[n]
  {
    var q := LastOpening(limits, times, p, n);
    assert After(limits, times, n).value.resetAt >= times[p] + limits.windowMs;
  }

  lemma {:induction false} LastOpening(limits: Limits, times: seq<nat>, p: nat, n: nat) returns (q: nat)
    requires p < n <= |times| && OpensAt(limits, times, p)
    ensures p <= q < n && After(limits, times, n).value.resetAt == times[q] + limits.windowMs
    ensures times[p] + limits.windowMs <= After(limits, times, n).value.resetAt
    decreases n
  {
    if n == p + 1 {
      q := p;
    } else {
      q := LastOpening(limits, times, p, n - 1);
      if OpensAt(limits, times, n - 1) {
        q := n - 1;
      }
    }
  }

  /** In one window the first `max` requests of a key pass and no more; and one if `max` is zero. */
  lemma {:induction false} WindowBound(limits: Limits, times: seq<nat>, lo: nat, hi: nat)
    requires lo < hi <= |times| && OpensAt(limits, times, lo)
    requires forall n :: lo < n < hi ==> !OpensAt(limits, times, n)
    ensures CountAdmitted(limits, times, lo, hi) == if hi - lo < Cap(limits) then hi - lo else Cap(limits)
    ensures forall n :: lo <= n < hi ==> (Admits(limits, times, n) <==> n - lo < Cap(limits))
    ensures After(limits, times, hi) == Some(Bucket(hi - lo, times[lo] + limits.windowMs))
    decreases hi
  {
    if lo + 1 < hi {
      WindowBound(limits, times, lo, hi - 1);
      assert !OpensAt(limits, times, hi - 1);
    }
  }

  /** A request opens a window exactly when it is the key's first or the last window is over. */
  lemma WindowOpens(limits: Limits, times: seq<nat>, lo: nat, n: nat)
    requires lo <= n < |times| && (lo < n ==> OpensAt(limits, times, lo) && forall k :: lo < k < n ==> !OpensAt(limits, times, k))
    ensures n == 0 ==> OpensAt(limits, times, n)
    ensures lo < n ==> (OpensAt(limits, times, n) <==> times[lo] + limits.windowMs <= times[n])
  {
    if lo < n {
      WindowBound(limits, times, lo, n);
    }
  }

  /**
   * In any stretch of time shorter than a window, wherever it starts, at most twice the maximum pass:
   * such a stretch meets at most two windows.
   */
  lemma IntervalBound(limits: Limits, times: seq<nat>, lo: nat, hi: nat)
    requires Nondecreasing(times) && lo < hi <= |times| && times[hi - 1] < times[lo] + limits.windowMs
    ensures CountAdmitted(limits, times, lo, hi) <= 2 * Cap(limits)
  {
    hide Admits, After, OpensAt;
    if forall n :: lo < n < hi ==> !OpensAt(limits, times, n) {
      WithinWindow(limits, times, lo, hi);
    } else {
      var p: nat :| lo < p < hi && OpensAt(limits, times, p);
      forall n | lo < n < hi && n != p ensures !OpensAt(limits, times, n) {
        if OpensAt(limits, times, n) {
          WindowsApart(limits, times, if n < p then n else p, if n < p then p else n);
        }
      }
      WithinWindow(limits, times, lo, p);
      WithinWindow(limits, times, p, hi);
      CountSplit(limits, times, lo, p, hi);
    }
  }

  // ---- The middleware: many keys in one map, swept when it grows ----

  type Buckets = map<string, Bucket>

  function Swept(buckets: Buckets, now: nat): Buckets {
    if |buckets| > 10000 then map k | k in buckets && buckets[k].resetAt > now :: buckets[k] else buckets
  }

  /** A map of more than 10000 buckets keeps exactly those whose window goes on; a smaller one is left alone. */
  lemma SweptKeepsLive(buckets: Buckets, now: nat, key: string)
    ensures key in Swept(buckets, now) <==> key in buckets && (|buckets| > 10000 ==> now < buckets[key].resetAt)
    ensures key in Swept(buckets, now) ==> Swept(buckets, now)[key] == buckets[key]
  {
  }

  function Lookup(buckets: Buckets, key: string): Option<Bucket> {
    if key in buckets then Some(buckets[key]) else None
  }

  /** One request: sweep, then touch the key's bucket. */
  function Handled(limits: Limits, buckets: Buckets, key: string, now: nat): (Buckets, bool) {
    var swept := Swept(buckets, now);
    var b := Lookup(swept, key);
    (swept[key := Touch(limits, b, now)], Admitted(limits, b, now))
  }

  class Limiter {
    const limits: Limits
    var buckets: Buckets

    constructor (limits: Limits)
      ensures this.limits == limits && buckets == map[]
    {
      this.limits := limits;
      buckets := map[];
    }

    method Handle(key: string, now: nat) returns (admitted: bool)
      modifies this
      ensures (buckets, admitted) == Handled(limits, old(buckets), key, now)
    {
      if |buckets| > 10000 {
        Sweep(now);
      }
      if key !in buckets || buckets[key].resetAt <= now {
        buckets := buckets[key := Bucket(1, now + limits.windowMs)];
        return true;
      }
      buckets := buckets[key := buckets[key].(count := buckets[key].count + 1)];
      if buckets[key].count > limits.max {
        return false;
      }
      return true;
    }

    /** The sweep: every bucket whose window is over is deleted. */
    method Sweep(now: nat)
      modifies this
      ensures buckets == map k | k in old(buckets) && old(buckets)[k].resetAt > now :: old(buckets)[k]
    {
      var todo := buckets.Keys;
      while todo != {}
        invariant todo <= buckets.Keys <= old(buckets).Keys
        invariant forall k :: k in buckets ==> buckets[k] == old(buckets)[k]
        invariant forall k :: k in old(buckets) && k !in todo ==> (k in buckets <==> old(buckets)[k].resetAt > now)
        decreases |todo|
      {
        var existing :| existing in todo;
        todo := todo - {existing};
        if buckets[existing].resetAt <= now {
          buckets := buckets - {existing};
        }
      }
    }
  }

  datatype Request = Request(key: string, now: nat)

  /** The map after the first n requests of a history. */
  function BucketsAfter(limits: Limits, history: seq<Request>, n: nat): Buckets
    requires n <= |history|
    decreases n
  {
    if n == 0 then map[]
    else Handled(limits, BucketsAfter(limits, history, n - 1), history[n - 1].key, history[n - 1].now).0
  }

  predicate Decision(limits: Limits, history: seq<Request>, n: nat)
    requires n < |history|
  {
    Handled(limits, BucketsAfter(limits, history, n), history[n].key, history[n].now).1
  }

  /** One key's own request times among the first n. */
  function TimesOf(history: seq<Request>, key: string, n: nat): seq<nat>
    requires n <= |history|
    decreases n
  {
    if n == 0 then []
    else if history[n - 1].key == key then TimesOf(history, key, n - 1) + [history[n - 1].now]
    else TimesOf(history, key, n - 1)
  }

  ghost predicate ClockForward(history: seq<Request>) {
    forall i, j :: 0 <= i < j < |history| ==> history[i].now <= history[j].now
  }

  /** What a decision made at or after `now` can see of a bucket: an expired one is as good as none. */
  function Live(b: Option<Bucket>, now: nat): Option<Bucket> {
    if Opens(b, now) then None else b
  }

  lemma LiveDecides(limits: Limits, a: Option<Bucket>, b: Option<Bucket>, now: nat)
    requires Live(a, now) == Live(b, now)
    ensures Admitted(limits, a, now) == Admitted(limits, b, now) && Touch(limits, a, now) == Touch(limits, b, now)
  {
  }

  /** Sweeping at an earlier time hides nothing from a later decision. */
  lemma SweepHidesNothing(buckets: Buckets, key: string, now: nat, later: nat)
    requires now <= later
    ensures Live(Lookup(Swept(buckets, now), key), later) == Live(Lookup(buckets, key), later)
  {
  }

  lemma {:induction false} AfterPrefix(limits: Limits, times: seq<nat>, longer: seq<nat>, n: nat)
    requires n <= |times| <= |longer| && longer[..|times|] == times
    ensures After(limits, longer, n) == After(limits, times, n)
    decreases n
  {
    if n > 0 {
      AfterPrefix(limits, times, longer, n - 1);
      assert longer[n - 1] == longer[..|times|][n - 1];
    }
  }

  /** The shared, swept map shows each key what a bucket of its own would. */
  lemma {:induction false} KeysAreSeparate(limits: Limits, history: seq<Request>, key: string, n: nat, later: nat)
    requires n <= |history| && ClockForward(history)
    requires forall i :: 0 <= i < n ==> history[i].now <= later
    ensures var times := TimesOf(history, key, n);
            Live(Lookup(BucketsAfter(limits, history, n), key), later) == Live(After(limits, times, |times|), later)
    decreases n
  {
    hide Swept, Handled, Touch;
    if n > 0 {
      var r, before := history[n - 1], BucketsAfter(limits, history, n - 1);
      var times := TimesOf(history, key, n - 1);
      KeysAreSeparate(limits, history, key, n - 1, r.now);
      KeysAreSeparate(limits, history, key, n - 1, later);
      SweepHidesNothing(before, key, r.now, r.now);
      SweepHidesNothing(before, key, r.now, later);
      OneHandled(limits, before, r, key);
      if r.key == key {
        AfterPrefix(limits, times, times + [r.now], |times|);
        LiveDecides(limits, Lookup(Swept(before, r.now), key), After(limits, times, |times|), r.now);
        assert After(limits, times + [r.now], |times| + 1) == Some(Touch(limits, After(limits, times, |times|), r.now));
      }
    }
  }

  /** One request touches its own key's bucket and only sweeps the others. */
  lemma OneHandled(limits: Limits, buckets: Buckets, r: Request, key: string)
    ensures var swept := Lookup(Swept(buckets, r.now), key);
            Lookup(Handled(limits, buckets, r.key, r.now).0, key) ==
            if r.key == key then Some(Touch(limits, swept, r.now)) else swept
  {
  }

  /**
   * Neither sharing the map nor sweeping it ever changes a decision: each request is admitted exactly
   * when its key's own unswept bucket would admit it.
   */
  lemma SweepingChangesNothing(limits: Limits, history: seq<Request>, n: nat)
    requires n < |history| && ClockForward(history)
    ensures var times := TimesOf(history, history[n].key, n + 1);
            |times| > 0 && (Decision(limits, history, n) <==> Admits(limits, times, |times| - 1))
  {
    var r, before := history[n], BucketsAfter(limits, history, n);
    var times := TimesOf(history, r.key, n);
    KeysAreSeparate(limits, history, r.key, n, r.now);
    SweepHidesNothing(before, r.key, r.now, r.now);
    AfterPrefix(limits, times, times + [r.now], |times|);
    LiveDecides(limits, Lookup(Swept(before, r.now), r.key), After(limits, times, |times|), r.now);
  }

  /** How many of one key's requests among lo to hi the shared, swept map admits. */
  function AdmittedOf(limits: Limits, history: seq<Request>, key: string, lo: nat, hi: nat): nat
    requires lo <= hi <= |history|
    decreases hi - lo
  {
    if lo == hi then 0
    else AdmittedOf(limits, history, key, lo, hi - 1)
         + (if history[hi - 1].key == key && Decision(limits, history, hi - 1) then 1 else 0)
  }

  lemma {:induction false} CountPrefix(limits: Limits, times: seq<nat>, longer: seq<nat>, lo: nat, hi: nat)
    requires lo <= hi <= |times| <= |longer| && longer[..|times|] == times
    ensures CountAdmitted(limits, longer, lo, hi) == CountAdmitted(limits, times, lo, hi)
    decreases hi - lo
  {
    if lo < hi {
      CountPrefix(limits, times, longer, lo, hi - 1);
      AfterPrefix(limits, times, longer, hi - 1);
      assert longer[hi - 1] == longer[..|times|][hi - 1];
    }
  }

  lemma {:induction false} SharedCount(limits: Limits, history: seq<Request>, key: string, lo: nat, hi: nat)
    requires lo <= hi <= |history| && ClockForward(history)
    ensures var times, from := TimesOf(history, key, hi), |TimesOf(history, key, lo)|;
            from <= |times| && AdmittedOf(limits, history, key, lo, hi) == CountAdmitted(limits, times, from, |times|)
    decreases hi - lo
  {
    hide Decision, Admits, ClockForward;
    if lo < hi {
      var times, from := TimesOf(history, key, hi - 1), |TimesOf(history, key, lo)|;
      SharedCount(limits, history, key, lo, hi - 1);
      if history[hi - 1].key == key {
        CountPrefix(limits, times, times + [history[hi - 1].now], from, |times|);
        SweepingChangesNothing(limits, history, hi - 1);
      }
    }
  }

  /** One key's requests come in order, those from lo on no earlier than request lo. */
  lemma {:induction false} TimesInOrder(history: seq<Request>, key: string, lo: nat, hi: nat)
    requires lo <= hi <= |history| && ClockForward(history)
    ensures var times, from := TimesOf(history, key, hi), |TimesOf(history, key, lo)|;
            && Nondecreasing(times) && from <= |times|
            && (forall i :: 0 <= i < |times| ==> hi > 0 && times[i] <= history[hi - 1].now)
            && (forall i :: from <= i < |times| ==> lo < hi && history[lo].now <= times[i])
    decreases hi
  {
    if lo < hi {
      TimesInOrder(history, key, lo, hi - 1);
    } else if hi > 0 {
      TimesInOrder(history, key, lo - 1, hi - 1);
    }
  }

  /**
   * The bound on the limiter itself: whatever other keys do and whenever buckets are swept, at most
   * twice the maximum of one key's requests pass in any stretch of time shorter than a window.
   */
  lemma SharedIntervalBound(limits: Limits, history: seq<Request>, key: string, lo: nat, hi: nat)
    requires ClockForward(history) && lo < hi <= |history|
    requires history[hi - 1].now < history[lo].now + limits.windowMs
    ensures AdmittedOf(limits, history, key, lo, hi) <= 2 * Cap(limits)
  {
    hide ClockForward, AdmittedOf, TimesOf;
    var times, from := TimesOf(history, key, hi), |TimesOf(history, key, lo)|;
    SharedCount(limits, history, key, lo, hi);
    TimesInOrder(history, key, lo, hi);
    if from < |times| {
      IntervalBound(limits, times, from, |times|);
    }
  }

  // ---- The resend allowance: one conditional update of a row ----

  datatype Allowance = Allowance(startedAt: Option<nat>, resends: nat)

  class Credential {
    var startedAt: Option<nat>
    var resends: nat

    function Value(): Allowance
      reads this
    {
      Allowance(startedAt, resends)
    }

    constructor ()
      ensures Value() == Allowance(None, 0)
    {
      startedAt, resends := None, 0;
    }

    /** `consumeResendAllowance`: the row changes only when its `where` matches. */
    method Consume(limits: Limits, now: nat) returns (allowed: bool)
      modifies this
      ensures (Value(), allowed) == Consumed(limits, old(Value()), now)
    {
      var windowStart: int := now - limits.windowMs;
      var rolled := startedAt.None? || startedAt.value <= windowStart;
      if rolled || resends < limits.max {
        resends := if rolled then 1 else resends + 1;
        startedAt := if rolled then Some(now) else startedAt;
        return true;
      }
      return false;
    }
  }

  function Consumed(limits: Limits, a: Allowance, now: nat): (Allowance, bool) {
    if a.startedAt.None? || a.startedAt.value + limits.windowMs <= now then (Allowance(Some(now), 1), true)
    else if a.resends < limits.max then (Allowance(a.startedAt, a.resends + 1), true)
    else (a, false)
  }

  function AllowanceAfter(limits: Limits, times: seq<nat>, n: nat): Allowance
    requires n <= |times|
    decreases n
  {
    if n == 0 then Allowance(None, 0) else Consumed(limits, AllowanceAfter(limits, times, n - 1), times[n - 1]).0
  }

  /** Refusals are not counted here, yet the row and the bucket stand for the same window. */
  ghost predicate SameWindow(limits: Limits, a: Allowance, b: Option<Bucket>) {
    && (a.startedAt.None? <==> b.None?)
    && (b.Some? ==>
          && a.startedAt.value + limits.windowMs == b.value.resetAt
          && a.resends == (if b.value.count <= Cap(limits) then b.value.count else Cap(limits)))
  }

  lemma {:induction false} AllowanceTracks(limits: Limits, times: seq<nat>, n: nat)
    requires n <= |times|
    ensures SameWindow(limits, AllowanceAfter(limits, times, n), After(limits, times, n))
    decreases n
  {
    if n > 0 {
      AllowanceTracks(limits, times, n - 1);
    }
  }

  /** The two limiters decide alike on every history, so the bounds hold of both. */
  lemma ResendsDecideAlike(limits: Limits, times: seq<nat>, n: nat)
    requires n < |times|
    ensures Consumed(limits, AllowanceAfter(limits, times, n), times[n]).1 <==> Admits(limits, times, n)
  {
    AllowanceTracks(limits, times, n);
  }
}
