// When the token bucket admits: exactly when no stretch of a key's requests up to now, this one included,
// holds more than the capacity and the refill of the stretch.
module RateLimitAnswers {
  import opened Options
  import opened RateLimit

  // ---------------------------------------------------------------- one bucket

  function BucketAfter(l: Limits, b: Bucket, times: seq<int>): Bucket
    requires l.ratePerMinute > 0.0
  {
    if times == [] then b else Draw(l, BucketAfter(l, b, times[..|times| - 1]), times[|times| - 1]).0
  }

  predicate AllowsAt(l: Limits, b: Bucket, times: seq<int>, n: nat)
    requires l.ratePerMinute > 0.0 && n < |times|
  {
    Draw(l, BucketAfter(l, b, times[..n]), times[n]).1.Allowed?
  }

  // How many of the requests from i on and before n were admitted.
  function AllowedIn(l: Limits, b: Bucket, times: seq<int>, i: nat, n: nat): nat
    requires l.ratePerMinute > 0.0 && i <= n <= |times|
  {
    if i == n then 0 else AllowedIn(l, b, times, i, n - 1) + if AllowsAt(l, b, times, n - 1) then 1 else 0
  }

  // What the stretch from request i on leaves for request n.
  function LeftFor(l: Limits, b: Bucket, times: seq<int>, i: nat, n: nat): real
    requires l.ratePerMinute > 0.0 && i <= n < |times|
  {
    l.ratePerMinute + Gain(l, times[n] - times[i]) - AllowedIn(l, b, times, i, n) as real
  }

  predicate Ordered(times: seq<int>, start: int) {
    (forall i :: 0 <= i < |times| ==> start <= times[i]) && forall i, j :: 0 <= i < j < |times| ==> times[i] <= times[j]
  }

  function Tokens(l: Limits, b: Bucket, times: seq<int>, n: nat): real
    requires l.ratePerMinute > 0.0 && n < |times|
  {
    Refilled(l, BucketAfter(l, b, times[..n]), times[n])
  }

  function Full(l: Limits, start: int): Bucket {
    Bucket(l.ratePerMinute, start, start)
  }

  lemma GainAdds(l: Limits, a: int, b: int)
    ensures Gain(l, a + b) == Gain(l, a) + Gain(l, b) && Gain(l, 0) == 0.0
    ensures a >= 0 && l.ratePerMinute > 0.0 ==> Gain(l, a) >= 0.0
  {
  }

  lemma {:induction false} NextTokens(l: Limits, b: Bucket, times: seq<int>, n: nat)
    requires l.ratePerMinute > 0.0 && 0 < n < |times| && times[n - 1] <= times[n]
    ensures var later := Tokens(l, b, times, n - 1) - (if AllowsAt(l, b, times, n - 1) then 1.0 else 0.0)
                         + Gain(l, times[n] - times[n - 1]);
      Tokens(l, b, times, n) == if later < l.ratePerMinute then later else l.ratePerMinute
  {
    assert times[..n][..n - 1] == times[..n - 1] && times[..n][n - 1] == times[n - 1];
    GainAdds(l, 0, 0);
  }

  lemma FirstTokens(l: Limits, start: int, times: seq<int>)
    requires l.ratePerMinute > 0.0 && times != [] && start <= times[0]
    ensures Tokens(l, Full(l, start), times, 0) == l.ratePerMinute
  {
    assert times[..0] == [];
    GainAdds(l, times[0] - start, 0);
  }

  lemma OneStretchMore(l: Limits, b: Bucket, times: seq<int>, i: nat, n: nat)
    requires l.ratePerMinute > 0.0 && i < n < |times|
    ensures LeftFor(l, b, times, i, n) == LeftFor(l, b, times, i, n - 1)
      - (if AllowsAt(l, b, times, n - 1) then 1.0 else 0.0) + Gain(l, times[n] - times[n - 1])
  {
    GainAdds(l, times[n - 1] - times[i], times[n] - times[n - 1]);
  }

  // The tokens a request finds are what the tightest stretch leaves.
  lemma {:induction false} TightestStretch(l: Limits, start: int, times: seq<int>, n: nat) returns (tightest: nat)
    requires l.ratePerMinute > 0.0 && Ordered(times, start) && n < |times|
    ensures tightest <= n && Tokens(l, Full(l, start), times, n) == LeftFor(l, Full(l, start), times, tightest, n)
    ensures forall i: nat | i <= n :: Tokens(l, Full(l, start), times, n) <= LeftFor(l, Full(l, start), times, i, n)
  {
    var b := Full(l, start);
    GainAdds(l, 0, 0);
    assert LeftFor(l, b, times, n, n) == l.ratePerMinute;
    if n == 0 {
      FirstTokens(l, start, times);
      tightest := 0;
    } else {
      tightest := TightestStretch(l, start, times, n - 1);
      NextTokens(l, b, times, n);
      OneStretchMore(l, b, times, tightest, n);
      hide Tokens, LeftFor, AllowsAt, Gain;
      if Tokens(l, b, times, n) == l.ratePerMinute { tightest := n; }
      forall i: nat | i <= n ensures Tokens(l, b, times, n) <= LeftFor(l, b, times, i, n) {
        if i < n { OneStretchMore(l, b, times, i, n); }
      }
    }
  }

  // A bucket that begins full admits a request exactly when every stretch of requests up to it, admitted
  // ones counted, leaves a whole token.
  lemma {:induction false} BucketAdmitsIff(l: Limits, start: int, times: seq<int>, n: nat)
    requires l.ratePerMinute > 0.0 && Ordered(times, start) && n < |times|
    ensures AllowsAt(l, Full(l, start), times, n) <==>
      forall i: nat | i <= n ::
        AllowedIn(l, Full(l, start), times, i, n) as real + 1.0 <= l.ratePerMinute + Gain(l, times[n] - times[i])
  {
    var tightest := TightestStretch(l, start, times, n);
    var b := Full(l, start);
    assert AllowsAt(l, b, times, n) <==> Tokens(l, b, times, n) >= 1.0;
    hide Tokens, AllowsAt, AllowedIn, Gain, Full;
    forall i: nat | i <= n
      ensures LeftFor(l, b, times, i, n) >= 1.0 <==>
        AllowedIn(l, b, times, i, n) as real + 1.0 <= l.ratePerMinute + Gain(l, times[n] - times[i])
    {
    }
    hide LeftFor;
  }

  // ---------------------------------------------------------------- one key among many

  // When a key's requests came.
  function TimesOf(requests: seq<Request>, key: string): seq<int> {
    if requests == [] then []
    else
      var last := requests[|requests| - 1];
      TimesOf(requests[..|requests| - 1], key) + if last.key == key then [last.now] else []
  }

  lemma {:induction false} TimesOrdered(requests: seq<Request>, key: string, start: int, end: int)
    requires Nondecreasing(requests, start, end)
    ensures Ordered(TimesOf(requests, key), start)
    ensures forall i :: 0 <= i < |TimesOf(requests, key)| ==> TimesOf(requests, key)[i] <= end
  {
    if requests != [] {
      TimesOrdered(requests[..|requests| - 1], key, start, requests[|requests| - 1].now);
    }
  }

  // The key's bucket is what its own requests leave.
  ghost predicate HasOwnBucket(l: Limits, s: State, key: string, times: seq<int>)
    requires l.ratePerMinute > 0.0
  {
    if times == [] then key !in s.buckets
    else key in s.buckets && s.buckets[key] == BucketAfter(l, Full(l, times[0]), times)
  }

  lemma {:induction false} OneRequestMore(l: Limits, s: State, request: Request, key: string, times: seq<int>)
    requires l.ratePerMinute > 0.0 && Consistent(l, s) && HasOwnBucket(l, s, key, times)
    requires key in s.buckets ==> key in Consume(l, s, request.key, request.now).0.buckets
    ensures HasOwnBucket(l, Consume(l, s, request.key, request.now).0, key,
                         times + if request.key == key then [request.now] else [])
  {
    hide Consume, Draw, Consistent, BucketAfter;
    if request.key == key {
      DrawsOnce(l, s, key, request.now);
      OneTimeMore(l, times, request.now);
      if times == [] { assert times + [request.now] == [request.now]; }
    } else {
      StaysAway(l, s, key, request);
      assert times + [] == times;
    }
  }

  // As long as it is not evicted, a key that was new has the bucket its own requests leave.
  lemma {:induction false} KeyHasItsBucket(l: Limits, s: State, requests: seq<Request>, key: string)
    requires l.ratePerMinute > 0.0 && Consistent(l, s) && key !in s.buckets && NeverEvicted(l, s, requests, key)
    ensures HasOwnBucket(l, After(l, s, requests), key, TimesOf(requests, key))
  {
    hide Consume, Draw, Consistent, BucketAfter, After;
    if requests == [] {
      NothingYet(l, s, key);
    } else {
      var last, earlier := requests[|requests| - 1], requests[..|requests| - 1];
      KeyHasItsBucket(l, s, earlier, key);
      RateLimit.OneMore(l, s, requests, key);
      hide NeverEvicted, HasOwnBucket;
      OneRequestMore(l, After(l, s, earlier), last, key, TimesOf(earlier, key));
    }
  }

  lemma NothingYet(l: Limits, s: State, key: string)
    requires l.ratePerMinute > 0.0 && Consistent(l, s) && key !in s.buckets
    ensures HasOwnBucket(l, After(l, s, []), key, TimesOf([], key))
  {
  }

  lemma {:induction false} OneTimeMore(l: Limits, times: seq<int>, now: int)
    requires l.ratePerMinute > 0.0
    ensures times != [] ==>
      BucketAfter(l, Full(l, times[0]), times + [now]) == Draw(l, BucketAfter(l, Full(l, times[0]), times), now).0
    ensures BucketAfter(l, Full(l, now), [now]) == Draw(l, Full(l, now), now).0
  {
    assert (times + [now])[..|times|] == times;
    assert [now][..0] == [];
  }

  lemma {:induction false} DrawsOnce(l: Limits, s: State, key: string, now: int)
    requires l.ratePerMinute > 0.0 && Consistent(l, s)
    ensures var (t, answer) := Consume(l, s, key, now);
      var b := if key in s.buckets then s.buckets[key] else Full(l, now);
      key in t.buckets && t.buckets[key] == Draw(l, b, now).0 && answer == Draw(l, b, now).1
  {
    hide Draw, Consistent;
  }

  // With a clock that never goes back, a key that was new and has not been evicted is admitted exactly when
  // no stretch of its own requests up to now holds more than the capacity and its refill, whatever other
  // keys do.
  lemma {:induction false} AdmittedIff(l: Limits, s: State, requests: seq<Request>, key: string, start: int, now: int)
    requires l.ratePerMinute > 0.0 && Consistent(l, s) && key !in s.buckets && NeverEvicted(l, s, requests, key)
    requires Nondecreasing(requests, start, now)
    ensures var times := TimesOf(requests, key) + [now];
      var n := |times| - 1;
      Consume(l, After(l, s, requests), key, now).1.Allowed? <==>
        forall i: nat | i <= n ::
          AllowedIn(l, Full(l, times[0]), times, i, n) as real + 1.0 <= l.ratePerMinute + Gain(l, now - times[i])
  {
    hide After, Consume, NeverEvicted, Draw, Gain, AllowedIn, Consistent, BucketAfter, Nondecreasing, TimesOf;
    var earlier := TimesOf(requests, key);
    var times := earlier + [now];
    TimesOrdered(requests, key, start, now);
    KeyHasItsBucket(l, s, requests, key);
    DrawsOnce(l, After(l, s, requests), key, now);
    assert times[..|earlier|] == earlier;
    assert Ordered(times, times[0]);
    BucketAdmitsIff(l, times[0], times, |earlier|);
    NoBucketYet(l, now);
  }

  lemma NoBucketYet(l: Limits, now: int)
    requires l.ratePerMinute > 0.0
    ensures BucketAfter(l, Full(l, now), []) == Full(l, now)
  {
  }
}
