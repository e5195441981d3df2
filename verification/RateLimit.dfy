// TokenBucketLimiter of server/apiRateLimit.js, with exact arithmetic.
module RateLimit {
  import opened Options

  datatype Bucket = Bucket(tokens: real, lastRefill: int, lastSeen: int)

  // The capacity of a bucket is the rate.
  datatype Limits = Limits(ratePerMinute: real, maxKeys: int)

  // A Map keeps its keys in insertion order.
  datatype State = State(order: seq<string>, buckets: map<string, Bucket>)

  datatype Answer = Allowed | Denied(retryAfterSeconds: int)

  // Anything but a text of at most 256 characters shares one bucket.
  datatype Caller = NotText | Caller(name: string)

  function NormalizedKey(caller: Caller): string {
    if caller.Caller? && |caller.name| <= 256 then caller.name else "invalid-key"
  }

  ghost predicate Consistent(l: Limits, s: State) {
    && (forall i, j :: 0 <= i < j < |s.order| ==> s.order[i] != s.order[j])
    && (forall k :: k in s.order <==> k in s.buckets)
    && (forall k <- s.buckets :: 0.0 <= s.buckets[k].tokens <= l.ratePerMinute)
  }

  // ---------------------------------------------------------------- one bucket

  // What a bucket gains in some milliseconds.
  function Gain(l: Limits, milliseconds: int): real {
    milliseconds as real * l.ratePerMinute / 60000.0
  }

  function Refilled(l: Limits, b: Bucket, now: int): real {
    var elapsed := if now > b.lastRefill then now - b.lastRefill else 0;
    var tokens := b.tokens + Gain(l, elapsed);
    if tokens < l.ratePerMinute then tokens else l.ratePerMinute
  }

  function Ceiling(x: real): int {
    -((-x).Floor)
  }

  function RetryAfter(l: Limits, tokens: real): int
    requires l.ratePerMinute > 0.0
  {
    var seconds := Ceiling((1.0 - tokens) * 60.0 / l.ratePerMinute);
    if seconds < 1 then 1 else seconds
  }

  function Draw(l: Limits, b: Bucket, now: int): (Bucket, Answer)
    requires l.ratePerMinute > 0.0
  {
    var tokens := Refilled(l, b, now);
    if tokens >= 1.0 then (Bucket(tokens - 1.0, now, now), Allowed)
    else (Bucket(tokens, now, now), Denied(RetryAfter(l, tokens)))
  }

  // ---------------------------------------------------------------- eviction

  // The first key with the smallest lastSeen.
  function Oldest(order: seq<string>, buckets: map<string, Bucket>): Option<string>
    requires forall k <- order :: k in buckets
    ensures order == [] <==> Oldest(order, buckets).None?
    ensures order != [] ==> Oldest(order, buckets).value in order
  {
    if order == [] then None
    else
      var last, before := order[|order| - 1], Oldest(order[..|order| - 1], buckets);
      if before.None? || buckets[last].lastSeen < buckets[before.value].lastSeen then Some(last) else before
  }

  lemma {:induction false} OldestIsLeastSeen(order: seq<string>, buckets: map<string, Bucket>)
    requires order != [] && forall k <- order :: k in buckets
    ensures var oldest := Oldest(order, buckets).value;
      forall k <- order :: buckets[oldest].lastSeen <= buckets[k].lastSeen
  {
    var prefix := order[..|order| - 1];
    assert order == prefix + [order[|order| - 1]];
    if prefix != [] { OldestIsLeastSeen(prefix, buckets); }
  }

  function Without(order: seq<string>, key: string): seq<string> {
    if order == [] then [] else if order[0] == key then order[1..] else [order[0]] + Without(order[1..], key)
  }

  lemma {:induction false} WithoutFacts(order: seq<string>, key: string)
    requires forall i, j :: 0 <= i < j < |order| ==> order[i] != order[j]
    ensures var rest := Without(order, key);
      && (forall i, j :: 0 <= i < j < |rest| ==> rest[i] != rest[j])
      && (forall k :: k in rest <==> k in order && k != key)
  {
    if order != [] {
      var first, tail := order[0], order[1..];
      assert order == [first] + tail;
      forall i, j | 0 <= i < j < |tail| ensures tail[i] != tail[j] { assert tail[i] == order[i + 1]; }
      assert first !in tail;
      WithoutFacts(tail, key);
      var rest := Without(tail, key);
      forall i | 0 <= i < |rest| ensures rest[i] != first { assert rest[i] in tail; }
      forall k ensures k in order <==> k == first || k in tail {}
    }
  }

  function Evict(l: Limits, s: State): State
    requires Consistent(l, s)
  {
    if |s.buckets| < l.maxKeys then s
    else
      var oldest := Oldest(s.order, s.buckets);
      if oldest.None? then s
      else State(Without(s.order, oldest.value), s.buckets - {oldest.value})
  }

  // ---------------------------------------------------------------- consume

  function WithBucket(l: Limits, s: State, key: string, now: int): State
    requires Consistent(l, s)
  {
    if key in s.buckets then s
    else
      var room := Evict(l, s);
      State(room.order + [key], room.buckets[key := Bucket(l.ratePerMinute, now, now)])
  }

  function Consume(l: Limits, s: State, key: string, now: int): (State, Answer)
    requires l.ratePerMinute > 0.0 && Consistent(l, s)
  {
    var found := WithBucket(l, s, key, now);
    var (bucket, answer) := Draw(l, found.buckets[key], now);
    (found.(buckets := found.buckets[key := bucket]), answer)
  }

  function MaxSize(l: Limits): nat {
    if l.maxKeys < 1 then 1 else l.maxKeys
  }

  lemma RefillStaysInside(l: Limits, b: Bucket, now: int)
    requires l.ratePerMinute > 0.0 && 0.0 <= b.tokens <= l.ratePerMinute
    ensures 0.0 <= Refilled(l, b, now) <= l.ratePerMinute
    ensures now >= b.lastRefill ==>
      Refilled(l, b, now) <= b.tokens + Gain(l, now - b.lastRefill)
  {
  }

  lemma {:induction false} EvictKeeps(l: Limits, s: State)
    requires Consistent(l, s)
    ensures Consistent(l, Evict(l, s))
    ensures |s.buckets| <= MaxSize(l) ==> |Evict(l, s).buckets| < MaxSize(l)
  {
    if |s.buckets| >= l.maxKeys && s.order != [] {
      var oldest := Oldest(s.order, s.buckets).value;
      WithoutFacts(s.order, oldest);
      assert (s.buckets - {oldest}).Keys == s.buckets.Keys - {oldest};
    } else if s.order == [] {
      assert s.buckets.Keys == {};
    }
  }

  lemma {:induction false} EvictOnlyRemoves(l: Limits, s: State)
    requires Consistent(l, s)
    ensures Evict(l, s).buckets.Keys <= s.buckets.Keys
  {
  }

  lemma {:induction false} OneBucketMore(l: Limits, s: State, key: string, b: Bucket)
    requires Consistent(l, s) && key !in s.buckets && 0.0 <= b.tokens <= l.ratePerMinute
    ensures var t := State(s.order + [key], s.buckets[key := b]);
      Consistent(l, t) && key in t.buckets && |t.buckets| == |s.buckets| + 1
  {
    var t := State(s.order + [key], s.buckets[key := b]);
    assert t.buckets.Keys == s.buckets.Keys + {key};
    assert key !in s.order;
    forall i, j | 0 <= i < j < |t.order| ensures t.order[i] != t.order[j] {
      if j == |s.order| { assert s.order[i] in s.order; }
    }
    forall k ensures k in t.order <==> k in t.buckets {
      assert k in t.order <==> k in s.order || k == key;
    }
  }

  lemma {:induction false} WithBucketKeeps(l: Limits, s: State, key: string, now: int)
    requires Consistent(l, s) && l.ratePerMinute > 0.0
    ensures var t := WithBucket(l, s, key, now);
      Consistent(l, t) && key in t.buckets && (|s.buckets| <= MaxSize(l) ==> |t.buckets| <= MaxSize(l))
  {
    if key !in s.buckets {
      EvictKeeps(l, s);
      EvictOnlyRemoves(l, s);
      var room := Evict(l, s);
      hide Evict;
      OneBucketMore(l, room, key, Bucket(l.ratePerMinute, now, now));
    }
  }

  // Every bucket stays between empty and full, and the map within its bound.
  lemma {:induction false} ConsumeKeeps(l: Limits, s: State, key: string, now: int)
    requires Consistent(l, s) && l.ratePerMinute > 0.0
    ensures Consistent(l, Consume(l, s, key, now).0)
    ensures |s.buckets| <= MaxSize(l) ==> |Consume(l, s, key, now).0.buckets| <= MaxSize(l)
  {
    WithBucketKeeps(l, s, key, now);
    var found := WithBucket(l, s, key, now);
    RefillStaysInside(l, found.buckets[key], now);
    assert Consume(l, s, key, now).0.buckets.Keys == found.buckets.Keys;
  }

  // ---------------------------------------------------------------- runs

  datatype Request = Request(key: string, now: int)

  function After(l: Limits, s: State, requests: seq<Request>): (t: State)
    requires l.ratePerMinute > 0.0 && Consistent(l, s)
    ensures Consistent(l, t)
  {
    if requests == [] then s
    else
      var last := requests[|requests| - 1];
      var before := After(l, s, requests[..|requests| - 1]);
      ConsumeKeeps(l, before, last.key, last.now);
      Consume(l, before, last.key, last.now).0
  }

  // How many requests of a key a run has admitted.
  function Admitted(l: Limits, s: State, requests: seq<Request>, key: string): nat
    requires l.ratePerMinute > 0.0 && Consistent(l, s)
  {
    if requests == [] then 0
    else
      var last, earlier := requests[|requests| - 1], requests[..|requests| - 1];
      var answer := Consume(l, After(l, s, earlier), last.key, last.now).1;
      Admitted(l, s, earlier, key) + if last.key == key && answer.Allowed? then 1 else 0
  }

  // No request of the run throws the key out.
  predicate NeverEvicted(l: Limits, s: State, requests: seq<Request>, key: string)
    requires l.ratePerMinute > 0.0 && Consistent(l, s)
  {
    if requests == [] then true
    else
      var earlier := requests[..|requests| - 1];
      && NeverEvicted(l, s, earlier, key)
      && (key in After(l, s, earlier).buckets ==> key in After(l, s, requests).buckets)
  }

  lemma {:induction false} SizeBounded(l: Limits, s: State, requests: seq<Request>)
    requires l.ratePerMinute > 0.0 && Consistent(l, s) && |s.buckets| <= MaxSize(l)
    ensures |After(l, s, requests).buckets| <= MaxSize(l)
  {
    if requests != [] {
      var last, earlier := requests[|requests| - 1], requests[..|requests| - 1];
      SizeBounded(l, s, earlier);
      ConsumeKeeps(l, After(l, s, earlier), last.key, last.now);
    }
  }

  // Only a new key makes room, and it is the bucket unused for longest that goes.
  lemma EvictsLeastRecentlySeen(l: Limits, s: State, key: string, now: int, gone: string)
    requires l.ratePerMinute > 0.0 && Consistent(l, s)
    requires gone in s.buckets && gone !in Consume(l, s, key, now).0.buckets
    ensures key !in s.buckets && |s.buckets| >= l.maxKeys
    ensures forall k <- s.buckets :: s.buckets[gone].lastSeen <= s.buckets[k].lastSeen
  {
    OldestIsLeastSeen(s.order, s.buckets);
  }

  predicate Nondecreasing(requests: seq<Request>, start: int, end: int) {
    && (forall i :: 0 <= i < |requests| ==> start <= requests[i].now <= end)
    && (forall i, j :: 0 <= i < j < |requests| ==> requests[i].now <= requests[j].now)
  }

  // What has been admitted and what is left in the bucket is paid for by the capacity and the refill.
  ghost predicate Paid(l: Limits, bucket: Option<Bucket>, admitted: nat, start: int, now: int) {
    match bucket
    case None => admitted == 0
    case Some(b) =>
      && b.lastRefill <= now
      && (b.lastRefill < start ==> admitted == 0)
      && (b.lastRefill >= start ==> admitted as real + b.tokens <= l.ratePerMinute + Gain(l, b.lastRefill - start))
  }

  function BucketOf(s: State, key: string): Option<Bucket> {
    if key in s.buckets then Some(s.buckets[key]) else None
  }

  lemma DrawIsPaid(l: Limits, b: Bucket, start: int, was: int, now: int, admitted: nat)
    requires l.ratePerMinute > 0.0 && 0.0 <= b.tokens <= l.ratePerMinute
    requires was <= now && start <= now && Paid(l, Some(b), admitted, start, was)
    ensures var (left, answer) := Draw(l, b, now);
      Paid(l, Some(left), admitted + (if answer.Allowed? then 1 else 0), start, now)
  {
  }

  lemma NewIsPaid(l: Limits, start: int, now: int)
    requires l.ratePerMinute > 0.0 && start <= now
    ensures Paid(l, Some(Bucket(l.ratePerMinute, now, now)), 0, start, now)
  {
  }

  lemma ConsumeIsPaid(l: Limits, s: State, key: string, admitted: nat, start: int, was: int, request: Request)
    requires l.ratePerMinute > 0.0 && Consistent(l, s) && Paid(l, BucketOf(s, key), admitted, start, was)
    requires start <= request.now && was <= request.now
    requires key in s.buckets ==> key in Consume(l, s, request.key, request.now).0.buckets
    ensures var (t, answer) := Consume(l, s, request.key, request.now);
      Paid(l, BucketOf(t, key), admitted + (if request.key == key && answer.Allowed? then 1 else 0), start, request.now)
  {
    if request.key == key {
      WithBucketKeeps(l, s, key, request.now);
      var b := WithBucket(l, s, key, request.now).buckets[key];
      hide Paid, Draw;
      if key in s.buckets {
        DrawIsPaid(l, b, start, was, request.now, admitted);
      } else {
        assert admitted == 0 by { Unseen(l, admitted, start, was); }
        NewIsPaid(l, start, request.now);
        DrawIsPaid(l, b, start, request.now, request.now, admitted);
      }
    } else {
      hide Gain, Draw;
      StaysAway(l, s, key, request);
    }
  }

  lemma Unseen(l: Limits, admitted: nat, start: int, now: int)
    requires Paid(l, None, admitted, start, now)
    ensures admitted == 0
  {
  }

  // A request of another key keeps a bucket as it is or evicts it; an evicted one does not return.
  lemma StaysAway(l: Limits, s: State, key: string, request: Request)
    requires l.ratePerMinute > 0.0 && Consistent(l, s) && request.key != key
    ensures var after := BucketOf(Consume(l, s, request.key, request.now).0, key);
      after == BucketOf(s, key) || after == None
  {
  }

  lemma {:induction false} RunIsPaid(l: Limits, s: State, requests: seq<Request>, key: string, start: int, end: int)
    requires l.ratePerMinute > 0.0 && Consistent(l, s) && NeverEvicted(l, s, requests, key)
    requires Nondecreasing(requests, start, end) && (key in s.buckets ==> s.buckets[key].lastRefill <= start)
    ensures var now := if requests == [] then start else requests[|requests| - 1].now;
      Paid(l, BucketOf(After(l, s, requests), key), Admitted(l, s, requests, key), start, now)
  {
    hide Paid, Consume, Gain, Consistent, BucketOf, After, Admitted;
    if requests == [] {
      FirstIsPaid(l, s, key, start);
    } else {
      RunIsPaid(l, s, requests[..|requests| - 1], key, start, end);
      RunStep(l, s, requests, key, start);
    }
  }

  lemma {:induction false} RunStep(l: Limits, s: State, requests: seq<Request>, key: string, start: int)
    requires l.ratePerMinute > 0.0 && Consistent(l, s) && requests != []
    requires NeverEvicted(l, s, requests, key)
    requires start <= requests[|requests| - 1].now
    requires |requests| > 1 ==> requests[|requests| - 2].now <= requests[|requests| - 1].now
    requires var earlier := requests[..|requests| - 1];
      Paid(l, BucketOf(After(l, s, earlier), key), Admitted(l, s, earlier, key), start,
           if earlier == [] then start else earlier[|earlier| - 1].now)
    ensures Paid(l, BucketOf(After(l, s, requests), key), Admitted(l, s, requests, key), start,
                 requests[|requests| - 1].now)
  {
    hide *;
    var last, earlier := requests[|requests| - 1], requests[..|requests| - 1];
    OneMore(l, s, requests, key);
    var before, admitted := After(l, s, earlier), Admitted(l, s, earlier, key);
    var was := if earlier == [] then start else earlier[|earlier| - 1].now;
    ConsumeIsPaid(l, before, key, admitted, start, was, last);
  }

  lemma OneMore(l: Limits, s: State, requests: seq<Request>, key: string)
    requires l.ratePerMinute > 0.0 && Consistent(l, s) && requests != []
    ensures var last, earlier := requests[|requests| - 1], requests[..|requests| - 1];
      var (t, answer) := Consume(l, After(l, s, earlier), last.key, last.now);
      && After(l, s, requests) == t
      && Admitted(l, s, requests, key) ==
           Admitted(l, s, earlier, key) + (if last.key == key && answer.Allowed? then 1 else 0)
      && (NeverEvicted(l, s, requests, key) ==>
           key in After(l, s, earlier).buckets ==> key in After(l, s, requests).buckets)
  {
  }

  lemma FirstIsPaid(l: Limits, s: State, key: string, start: int)
    requires l.ratePerMinute > 0.0 && Consistent(l, s) && (key in s.buckets ==> s.buckets[key].lastRefill <= start)
    ensures Paid(l, BucketOf(After(l, s, []), key), Admitted(l, s, [], key), start, start)
  {
  }

  // With a clock that never goes back, a key that is not evicted gets at most the capacity and the
  // refill of the window admitted in it, whatever the other keys do.
  lemma {:induction false} WindowBound(l: Limits, s: State, requests: seq<Request>, key: string, start: int, end: int)
    requires l.ratePerMinute > 0.0 && Consistent(l, s) && NeverEvicted(l, s, requests, key)
    requires start <= end && Nondecreasing(requests, start, end)
    requires key in s.buckets ==> s.buckets[key].lastRefill <= start
    ensures Admitted(l, s, requests, key) as real
      <= l.ratePerMinute + Gain(l, end - start)
  {
    RunIsPaid(l, s, requests, key, start, end);
    var t, admitted := After(l, s, requests), Admitted(l, s, requests, key);
    var now := if requests == [] then start else requests[|requests| - 1].now;
    hide After, Admitted, NeverEvicted, Gain, Paid, Nondecreasing;
    PaidBound(l, BucketOf(t, key), admitted, start, now, end);
  }

  lemma PaidBound(l: Limits, bucket: Option<Bucket>, admitted: nat, start: int, now: int, end: int)
    requires l.ratePerMinute > 0.0 && Paid(l, bucket, admitted, start, now) && start <= now <= end
    requires bucket.Some? ==> bucket.value.tokens >= 0.0
    ensures admitted as real <= l.ratePerMinute + Gain(l, end - start)
  {
  }

  // ---------------------------------------------------------------- retryAfterSeconds

  lemma CeilingFacts(x: real, n: int)
    ensures x <= Ceiling(x) as real < x + 1.0
    ensures n as real >= x <==> n >= Ceiling(x)
  {
  }

  // A wait of whole seconds brings the bucket back to one token exactly when it is long enough.
  lemma EnoughIff(l: Limits, tokens: real, seconds: int)
    requires l.ratePerMinute > 0.0
    ensures tokens + Gain(l, 1000 * seconds) >= 1.0
      <==> seconds as real >= (1.0 - tokens) * 60.0 / l.ratePerMinute
  {
  }

  // After a refusal, a wait without further requests is long enough exactly when it is at least
  // retryAfterSeconds, provided a full bucket holds a whole token; otherwise no wait ever is.
  lemma {:induction false} WaitSufficesIff(l: Limits, b: Bucket, now: int, seconds: int)
    requires l.ratePerMinute > 0.0 && 0.0 <= b.tokens <= l.ratePerMinute && seconds >= 1
    requires Draw(l, b, now).1.Denied?
    ensures var (left, answer) := Draw(l, b, now);
      Draw(l, left, now + 1000 * seconds).1.Allowed? <==>
        l.ratePerMinute >= 1.0 && seconds >= answer.retryAfterSeconds
  {
    var tokens := Refilled(l, b, now);
    var wanted := (1.0 - tokens) * 60.0 / l.ratePerMinute;
    CeilingFacts(wanted, seconds);
    EnoughIff(l, tokens, seconds);
    var left := Draw(l, b, now).0;
    assert Refilled(l, left, now + 1000 * seconds) ==
      var later := tokens + Gain(l, 1000 * seconds);
      if later < l.ratePerMinute then later else l.ratePerMinute;
  }

  ghost predicate Untouched(requests: seq<Request>, key: string) {
    forall i :: 0 <= i < |requests| ==> requests[i].key != key
  }

  lemma {:induction false} OthersLeaveAlone(l: Limits, s: State, requests: seq<Request>, key: string)
    requires l.ratePerMinute > 0.0 && Consistent(l, s) && Untouched(requests, key) && key in s.buckets
    ensures var t := After(l, s, requests); key in t.buckets ==> t.buckets[key] == s.buckets[key]
  {
    if requests != [] {
      var last, earlier := requests[|requests| - 1], requests[..|requests| - 1];
      OthersLeaveAlone(l, s, earlier, key);
      StaysAway(l, After(l, s, earlier), key, last);
    }
  }

  // The promise behind the Retry-After header: whatever other keys do meanwhile, even if the bucket
  // is evicted, a caller who waits retryAfterSeconds is admitted.
  lemma {:induction false} UndisturbedWaitAdmits(l: Limits, s: State, key: string, now: int, others: seq<Request>, later: int)
    requires l.ratePerMinute >= 1.0 && Consistent(l, s) && Untouched(others, key)
    requires Consume(l, s, key, now).1.Denied?
    requires later >= now + 1000 * Consume(l, s, key, now).1.retryAfterSeconds
    ensures Consistent(l, Consume(l, s, key, now).0)
    ensures Consume(l, After(l, Consume(l, s, key, now).0, others), key, later).1.Allowed?
  {
    hide *;
    var b := Refusal(l, s, key, now);
    var t := Consume(l, s, key, now).0;
    if key in After(l, t, others).buckets {
      OthersLeaveAlone(l, t, others, key);
      BucketWaits(l, b, now, later);
      ConsumeIsDraw(l, After(l, t, others), key, later);
    } else {
      FullAdmits(l, After(l, t, others), key, later);
    }
  }

  lemma BucketWaits(l: Limits, b: Bucket, now: int, later: int)
    requires l.ratePerMinute >= 1.0 && 0.0 <= b.tokens <= l.ratePerMinute && Draw(l, b, now).1.Denied?
    requires later >= now + 1000 * Draw(l, b, now).1.retryAfterSeconds
    ensures Draw(l, Draw(l, b, now).0, later).1.Allowed?
  {
    var tokens := Refilled(l, b, now);
    var seconds := RetryAfter(l, tokens);
    CeilingFacts((1.0 - tokens) * 60.0 / l.ratePerMinute, seconds);
    EnoughIff(l, tokens, seconds);
    GainGrows(l, 1000 * seconds, later - now);
    hide Gain, Ceiling;
    assert seconds >= 1;
    assert Refilled(l, Bucket(tokens, now, now), later) >= 1.0;
  }

  lemma GainGrows(l: Limits, a: int, b: int)
    requires l.ratePerMinute > 0.0 && a <= b
    ensures Gain(l, a) <= Gain(l, b)
  {
    assert (b - a) as real * l.ratePerMinute >= 0.0;
    assert b as real * l.ratePerMinute == a as real * l.ratePerMinute + (b - a) as real * l.ratePerMinute;
  }

  // The bucket that a refusal was drawn from.
  lemma Refusal(l: Limits, s: State, key: string, now: int) returns (b: Bucket)
    requires l.ratePerMinute > 0.0 && Consistent(l, s)
    ensures 0.0 <= b.tokens <= l.ratePerMinute && Draw(l, b, now).1 == Consume(l, s, key, now).1
    ensures var t := Consume(l, s, key, now).0;
      Consistent(l, t) && key in t.buckets && t.buckets[key] == Draw(l, b, now).0
  {
    ConsumeKeeps(l, s, key, now);
    WithBucketKeeps(l, s, key, now);
    b := WithBucket(l, s, key, now).buckets[key];
    hide Draw, WithBucket;
  }

  lemma ConsumeIsDraw(l: Limits, s: State, key: string, now: int)
    requires l.ratePerMinute > 0.0 && Consistent(l, s)
    ensures key in s.buckets ==> Consume(l, s, key, now).1 == Draw(l, s.buckets[key], now).1
  {
  }

  lemma FullAdmits(l: Limits, s: State, key: string, now: int)
    requires l.ratePerMinute >= 1.0 && Consistent(l, s) && key !in s.buckets
    ensures Consume(l, s, key, now).1.Allowed?
  {
  }

  // ---------------------------------------------------------------- the limiter

  class TokenBucketLimiter {
    const limits: Limits
    var order: seq<string>
    var buckets: map<string, Bucket>

    ghost predicate Valid()
      reads this
    {
      limits.ratePerMinute > 0.0 && Consistent(limits, Model()) && |buckets| <= MaxSize(limits)
    }

    ghost function Model(): State
      reads this
    {
      State(order, buckets)
    }

    constructor (ratePerMinute: real, maxKeys: int)
      requires ratePerMinute > 0.0
      ensures Valid() && limits == Limits(ratePerMinute, maxKeys) && Model() == State([], map[])
    {
      limits := Limits(ratePerMinute, maxKeys);
      order, buckets := [], map[];
    }

    method EvictIfNecessary()
      requires Valid()
      modifies this
      ensures Model() == Evict(limits, old(Model()))
    {
      if |buckets| < limits.maxKeys {
        return;
      }
      var oldestKey: Option<string> := None;
      for i := 0 to |order|
        invariant oldestKey == Oldest(order[..i], buckets)
      {
        assert order[..i + 1][..i] == order[..i];
        if oldestKey.None? || buckets[order[i]].lastSeen < buckets[oldestKey.value].lastSeen {
          oldestKey := Some(order[i]);
        }
      }
      assert order[..|order|] == order;
      if oldestKey.Some? {
        order := Without(order, oldestKey.value);
        buckets := buckets - {oldestKey.value};
      }
    }

    method Take(caller: Caller, now: int) returns (answer: Answer)
      requires Valid()
      modifies this
      ensures Valid()
      ensures (Model(), answer) == Consume(limits, old(Model()), NormalizedKey(caller), now)
    {
      var key := NormalizedKey(caller);
      ConsumeKeeps(limits, Model(), key, now);
      WithBucketKeeps(limits, Model(), key, now);
      if key !in buckets {
        EvictIfNecessary();
        order := order + [key];
        buckets := buckets[key := Bucket(limits.ratePerMinute, now, now)];
      }
      assert Model() == WithBucket(limits, old(Model()), key, now);
      hide Consistent, WithBucket, Evict, Draw;
      var bucket;
      bucket, answer := DrawFrom(limits, buckets[key], now);
      buckets := buckets[key := bucket];
    }
  }

  method DrawFrom(limits: Limits, found: Bucket, now: int) returns (bucket: Bucket, answer: Answer)
    requires limits.ratePerMinute > 0.0
    ensures (bucket, answer) == Draw(limits, found, now)
  {
    var elapsed := if now > found.lastRefill then now - found.lastRefill else 0;
    var tokens := found.tokens + Gain(limits, elapsed);
    if tokens > limits.ratePerMinute {
      tokens := limits.ratePerMinute;
    }
    if tokens >= 1.0 {
      bucket, answer := Bucket(tokens - 1.0, now, now), Allowed;
    } else {
      bucket, answer := Bucket(tokens, now, now), Denied(RetryAfter(limits, tokens));
    }
  }
}
