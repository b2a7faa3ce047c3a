/** The sliding-window limiter of the email connector, and what it grants over
    any run of calls under a non-decreasing clock. */
module RateLimits {

  datatype Limits = Limits(max: int, window: real)

  type Buckets = map<string, seq<real>>

  /** The time stamps still inside the window ending at `now`. */
  function Recent(ts: seq<real>, now: real, window: real): seq<real> {
    if |ts| == 0 then []
    else
      var n := |ts| - 1;
      var kept := Recent(ts[..n], now, window);
      if now - ts[n] < window then kept + [ts[n]] else kept
  }

  function Live(b: Buckets, key: string, now: real, lim: Limits): seq<real> {
    Recent(if key in b then b[key] else [], now, lim.window)
  }

  predicate Permits(b: Buckets, key: string, now: real, lim: Limits) {
    |Live(b, key, now, lim)| < lim.max
  }

  function AfterAllow(b: Buckets, key: string, now: real, lim: Limits): Buckets {
    b[key := if Permits(b, key, now, lim) then Live(b, key, now, lim) + [now] else Live(b, key, now, lim)]
  }

  function AfterCanAllow(b: Buckets, key: string, now: real, lim: Limits): Buckets {
    b[key := Live(b, key, now, lim)]
  }

  class RateLimiter {
    const lim: Limits
    var buckets: Buckets

    constructor (maxCalls: int, windowSeconds: real)
      ensures lim == Limits(maxCalls, windowSeconds) && buckets == map[]
    {
      lim := Limits(maxCalls, windowSeconds);
      buckets := map[];
    }

    /** The list comprehension shared by both calls. */
    method Prune(key: string, now: real) returns (bucket: seq<real>)
      ensures bucket == Live(buckets, key, now, lim)
    {
      var all := if key in buckets then buckets[key] else [];
      bucket := [];
      for i := 0 to |all|
        invariant bucket == Recent(all[..i], now, lim.window)
      {
        assert all[..i + 1][..i] == all[..i];
        if now - all[i] < lim.window {
          bucket := bucket + [all[i]];
        }
      }
      assert all[..|all|] == all;
    }

    method Allow(key: string, now: real) returns (granted: bool)
      modifies this`buckets
      ensures granted == Permits(old(buckets), key, now, lim)
      ensures buckets == AfterAllow(old(buckets), key, now, lim)
    {
      var bucket := Prune(key, now);
      if |bucket| >= lim.max {
        buckets := buckets[key := bucket];
        return false;
      }
      bucket := bucket + [now];
      buckets := buckets[key := bucket];
      return true;
    }

    method CanAllow(key: string, now: real) returns (possible: bool)
      modifies this`buckets
      ensures possible == Permits(old(buckets), key, now, lim)
      ensures buckets == AfterCanAllow(old(buckets), key, now, lim)
    {
      var bucket := Prune(key, now);
      buckets := buckets[key := bucket];
      return |bucket| < lim.max;
    }

    method Reset()
      modifies this`buckets
      ensures buckets == map[]
    {
      buckets := map[];
    }
  }

  // ---------------------------------------------------------------- runs of calls

  datatype Call = Allow(key: string, at: real) | CanAllow(key: string, at: real) | Reset(at: real)

  predicate NonDecreasing(calls: seq<Call>) {
    forall i, j :: 0 <= i < j < |calls| ==> calls[i].at <= calls[j].at
  }

  predicate NotBefore(calls: seq<Call>, now: real) {
    forall i :: 0 <= i < |calls| ==> calls[i].at <= now
  }

  function Step(b: Buckets, c: Call, lim: Limits): Buckets {
    match c
    case Allow(key, now) => AfterAllow(b, key, now, lim)
    case CanAllow(key, now) => AfterCanAllow(b, key, now, lim)
    case Reset(_) => map[]
  }

  /** The limiter's state after a run that starts with an empty limiter. */
  function Run(calls: seq<Call>, lim: Limits): Buckets {
    if |calls| == 0 then map[] else Step(Run(calls[..|calls| - 1], lim), calls[|calls| - 1], lim)
  }

  /** Reference history: the times of every granted call for `key` since the
      last reset, none of them ever forgotten. */
  function Grants(calls: seq<Call>, key: string, lim: Limits): seq<real> {
    if |calls| == 0 then []
    else
      var before, c := calls[..|calls| - 1], calls[|calls| - 1];
      match c
      case Allow(k, now) =>
        if k == key && Permits(Run(before, lim), k, now, lim) then Grants(before, key, lim) + [now]
        else Grants(before, key, lim)
      case CanAllow(_, _) => Grants(before, key, lim)
      case Reset(_) => []
  }

  lemma RecentPush(ts: seq<real>, t: real, now: real, window: real)
    ensures Recent(ts + [t], now, window)
         == if now - t < window then Recent(ts, now, window) + [t] else Recent(ts, now, window)
  {
    assert (ts + [t])[..|ts|] == ts;
  }

  /** Pruning early does not change what a later pruning keeps. */
  lemma {:induction false} RecentRecent(ts: seq<real>, t1: real, t2: real, window: real)
    requires t1 <= t2
    ensures Recent(Recent(ts, t1, window), t2, window) == Recent(ts, t2, window)
  {
    if |ts| > 0 {
      var n := |ts| - 1;
      RecentRecent(ts[..n], t1, t2, window);
      RecentPush(Recent(ts[..n], t1, window), ts[n], t2, window);
    }
  }

  /** The pruned bucket answers every later question exactly as the full history would. */
  lemma {:induction false} BucketRemembers(calls: seq<Call>, key: string, now: real, lim: Limits)
    requires NonDecreasing(calls) && NotBefore(calls, now)
    ensures Live(Run(calls, lim), key, now, lim) == Recent(Grants(calls, key, lim), now, lim.window)
  {
    if |calls| > 0 {
      var before, c := calls[..|calls| - 1], calls[|calls| - 1];
      var b := Run(before, lim);
      BucketRemembers(before, key, now, lim);
      if !c.Reset? && c.key == key {
        RecentRecent(if key in b then b[key] else [], c.at, now, lim.window);
        RecentPush(Live(b, key, c.at, lim), c.at, now, lim.window);
        RecentPush(Grants(before, key, lim), c.at, now, lim.window);
      }
    }
  }

  lemma PermitsByHistory(calls: seq<Call>, key: string, now: real, lim: Limits)
    requires NonDecreasing(calls) && NotBefore(calls, now)
    ensures Permits(Run(calls, lim), key, now, lim) <==> |Recent(Grants(calls, key, lim), now, lim.window)| < lim.max
  {
    BucketRemembers(calls, key, now, lim);
  }

  /** How many of the times lie after `from`. */
  function CountAfter(ts: seq<real>, from: real): nat {
    if |ts| == 0 then 0 else CountAfter(ts[..|ts| - 1], from) + if ts[|ts| - 1] > from then 1 else 0
  }

  lemma {:induction false} RecentIsAfter(ts: seq<real>, now: real, window: real)
    ensures |Recent(ts, now, window)| == CountAfter(ts, now - window)
  {
    if |ts| > 0 {
      RecentIsAfter(ts[..|ts| - 1], now, window);
    }
  }

  /** A call is granted exactly when fewer than `max` of all grants so far lie in
      the window that ends now and does not include its start. */
  lemma GrantedIffWindowHasRoom(calls: seq<Call>, key: string, now: real, lim: Limits)
    requires NonDecreasing(calls) && NotBefore(calls, now)
    ensures Permits(Run(calls, lim), key, now, lim)
       <==> CountAfter(Grants(calls, key, lim), now - lim.window) < lim.max
  {
    PermitsByHistory(calls, key, now, lim);
    RecentIsAfter(Grants(calls, key, lim), now, lim.window);
  }

  /** How many of the times lie in `[from, to)`. */
  function CountIn(ts: seq<real>, from: real, to: real): nat {
    if |ts| == 0 then 0
    else CountIn(ts[..|ts| - 1], from, to) + if from <= ts[|ts| - 1] < to then 1 else 0
  }

  lemma {:induction false} CountWithinRecent(ts: seq<real>, from: real, now: real, window: real)
    requires now < from + window
    ensures CountIn(ts, from, from + window) <= |Recent(ts, now, window)|
  {
    if |ts| > 0 {
      CountWithinRecent(ts[..|ts| - 1], from, now, window);
    }
  }

  /** One more grant into a window that still has room at that moment. */
  lemma GrantKeepsBound(gs: seq<real>, at: real, from: real, lim: Limits)
    requires |Recent(gs, at, lim.window)| < lim.max
    requires CountIn(gs, from, from + lim.window) <= lim.max
    ensures CountIn(gs + [at], from, from + lim.window) <= lim.max
  {
    assert (gs + [at])[..|gs|] == gs;
    if at < from + lim.window {
      CountWithinRecent(gs, from, at, lim.window);
    }
  }

  /** No window of the configured length ever holds more than `max` grants of one key. */
  lemma {:induction false} WindowBound(calls: seq<Call>, key: string, from: real, lim: Limits)
    requires NonDecreasing(calls)
    ensures CountIn(Grants(calls, key, lim), from, from + lim.window) <= if lim.max > 0 then lim.max else 0
  {
    if |calls| > 0 {
      var before, c := calls[..|calls| - 1], calls[|calls| - 1];
      WindowBound(before, key, from, lim);
      if c.Allow? && c.key == key && Permits(Run(before, lim), key, c.at, lim) {
        PermitsByHistory(before, key, c.at, lim);
        GrantKeepsBound(Grants(before, key, lim), c.at, from, lim);
      }
    }
  }

  /** The run with every preview left out. */
  function WithoutPreviews(calls: seq<Call>): seq<Call> {
    if |calls| == 0 then []
    else
      var before, c := calls[..|calls| - 1], calls[|calls| - 1];
      if c.CanAllow? then WithoutPreviews(before) else WithoutPreviews(before) + [c]
  }

  lemma {:induction false} WithoutPreviewsOrdered(calls: seq<Call>)
    requires NonDecreasing(calls)
    ensures NonDecreasing(WithoutPreviews(calls))
    ensures forall now :: NotBefore(calls, now) ==> NotBefore(WithoutPreviews(calls), now)
  {
    if |calls| > 0 {
      var before := calls[..|calls| - 1];
      WithoutPreviewsOrdered(before);
      assert NotBefore(before, calls[|calls| - 1].at);
      forall now | NotBefore(calls, now)
        ensures NotBefore(WithoutPreviews(calls), now)
      {
        assert NotBefore(before, now);
      }
    }
  }

  /** Previews consume nothing: the same calls are granted whether or not they happen. */
  lemma {:induction false} PreviewsChangeNoGrant(calls: seq<Call>, key: string, lim: Limits)
    requires NonDecreasing(calls)
    ensures Grants(WithoutPreviews(calls), key, lim) == Grants(calls, key, lim)
  {
    if |calls| > 0 {
      var before, c := calls[..|calls| - 1], calls[|calls| - 1];
      PreviewsChangeNoGrant(before, key, lim);
      var bare := WithoutPreviews(before);
      if !c.CanAllow? {
        assert (bare + [c])[..|bare|] == bare;
        if c.Allow? && c.key == key {
          WithoutPreviewsOrdered(before);
          assert NotBefore(before, c.at);
          PermitsByHistory(before, key, c.at, lim);
          PermitsByHistory(bare, key, c.at, lim);
        }
      }
    }
  }

  /** A preview foretells the send: right after it, at the same instant, `allow`
      gives the answer the preview gave. */
  lemma PreviewForetellsSend(calls: seq<Call>, key: string, now: real, lim: Limits)
    ensures Permits(Run(calls + [CanAllow(key, now)], lim), key, now, lim) == Permits(Run(calls, lim), key, now, lim)
  {
    var b := Run(calls, lim);
    assert (calls + [CanAllow(key, now)])[..|calls|] == calls;
    RecentRecent(if key in b then b[key] else [], now, now, lim.window);
  }
}
