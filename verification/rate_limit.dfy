/** The limit on HTTP requests per second and address: a window of times for each address, and what the
    windows promise about every run of requests. */
module RateLimit {

  const WINDOW_MS := 1000

  datatype Request = Request(ip: string, now: int)

  type Windows = map<string, seq<int>>

  /** What is left of a window once its expired times have been dropped from the front. */
  function Recent(window: seq<int>, now: int): seq<int> {
    if window != [] && now - window[0] >= WINDOW_MS then Recent(window[1..], now) else window
  }

  function WindowOf(windows: Windows, ip: string): seq<int> {
    if ip in windows then windows[ip] else []
  }

  predicate Allowed(windows: Windows, request: Request, max: int) {
    |Recent(WindowOf(windows, request.ip), request.now)| < max
  }

  function Checked(windows: Windows, request: Request, max: int): Windows {
    var recent := Recent(WindowOf(windows, request.ip), request.now);
    windows[request.ip := if |recent| < max then recent + [request.now] else recent]
  }

  // ----- runs

  /** The windows after a run of requests. */
  function WindowsAfter(requests: seq<Request>, max: int): Windows {
    if requests == [] then map[]
    else Checked(WindowsAfter(requests[..|requests| - 1], max), requests[|requests| - 1], max)
  }

  /** The times of an address's requests that a run accepts. */
  function Accepted(requests: seq<Request>, max: int, ip: string): seq<int> {
    if requests == [] then []
    else
      var before, last := requests[..|requests| - 1], requests[|requests| - 1];
      if last.ip == ip && Allowed(WindowsAfter(before, max), last, max)
      then Accepted(before, max, ip) + [last.now] else Accepted(before, max, ip)
  }

  /** The requests of an address are checked in the order of their times. */
  ghost predicate Ordered(requests: seq<Request>, ip: string) {
    forall i, j :: 0 <= i < j < |requests| && requests[i].ip == ip == requests[j].ip ==>
                     requests[i].now <= requests[j].now
  }

  /** No request of the address comes after this time. */
  ghost predicate UpTo(requests: seq<Request>, ip: string, now: int) {
    forall i :: 0 <= i < |requests| && requests[i].ip == ip ==> requests[i].now <= now
  }

  /** How many of the times lie in a half-open interval. */
  function CountIn(times: seq<int>, from: int, to: int): nat {
    if times == [] then 0
    else CountIn(times[..|times| - 1], from, to) + if from <= times[|times| - 1] < to then 1 else 0
  }

  /** The window is the end of the accepted times, and what is missing has expired. */
  ghost predicate Tail(window: seq<int>, accepted: seq<int>, now: int) {
    exists k: nat :: TailFrom(window, accepted, now, k)
  }

  ghost predicate TailFrom(window: seq<int>, accepted: seq<int>, now: int, k: nat) {
    k <= |accepted| && window == accepted[k..] && forall i :: 0 <= i < k ==> now - accepted[i] >= WINDOW_MS
  }

  ghost predicate Rising(times: seq<int>, now: int) {
    && (forall i, j :: 0 <= i < j < |times| ==> times[i] <= times[j])
    && forall i :: 0 <= i < |times| ==> times[i] <= now
  }

  lemma {:induction false} RecentIsTail(window: seq<int>, accepted: seq<int>, last: int, now: int)
    requires Tail(window, accepted, now) && last <= now
    ensures Tail(Recent(window, last), accepted, now)
    decreases |window|
  {
    if window != [] && last - window[0] >= WINDOW_MS {
      var k: nat :| TailFrom(window, accepted, now, k);
      assert TailFrom(window[1..], accepted, now, k + 1);
      RecentIsTail(window[1..], accepted, last, now);
    }
  }

  lemma {:induction false} OldTimesDoNotCount(times: seq<int>, k: nat, from: int, to: int)
    requires k <= |times| && forall i :: 0 <= i < k ==> times[i] < from
    ensures CountIn(times, from, to) == CountIn(times[k..], from, to)
    decreases |times|
  {
    var n := |times| - 1;
    if k == |times| {
      if times != [] {
        OldTimesDoNotCount(times[..n], n, from, to);
        assert times[..n][n..] == [] == times[k..];
      }
    } else {
      OldTimesDoNotCount(times[..n], k, from, to);
      assert times[..n][k..] == times[k..][..n - k];
    }
  }

  lemma {:induction false} AllTimesCount(times: seq<int>, from: int, to: int)
    requires forall i :: 0 <= i < |times| ==> from <= times[i] < to
    ensures CountIn(times, from, to) == |times|
  {
    if times != [] {
      AllTimesCount(times[..|times| - 1], from, to);
    }
  }

  lemma {:induction false} RecentStartsInside(window: seq<int>, now: int)
    ensures Recent(window, now) == [] || now - Recent(window, now)[0] < WINDOW_MS
  {
    if window != [] && now - window[0] >= WINDOW_MS {
      RecentStartsInside(window[1..], now);
    }
  }

  /** What is left of a window counts the accepted times of the last second. */
  lemma RecentCountsTheLastSecond(window: seq<int>, accepted: seq<int>, now: int)
    requires Tail(window, accepted, now) && Rising(accepted, now)
    ensures |Recent(window, now)| == CountIn(accepted, now - WINDOW_MS + 1, now + 1)
  {
    RecentIsTail(window, accepted, now, now);
    RecentStartsInside(window, now);
    var recent := Recent(window, now);
    var k: nat :| TailFrom(recent, accepted, now, k);
    forall i | 0 <= i < |recent| ensures now - WINDOW_MS + 1 <= recent[i] < now + 1 {
      assert recent[0] == accepted[k] <= accepted[k + i] == recent[i];
    }
    OldTimesDoNotCount(accepted, k, now - WINDOW_MS + 1, now + 1);
    AllTimesCount(recent, now - WINDOW_MS + 1, now + 1);
  }

  lemma {:induction false} AcceptedRise(requests: seq<Request>, max: int, ip: string, now: int)
    requires Ordered(requests, ip) && UpTo(requests, ip, now)
    ensures Rising(Accepted(requests, max, ip), now)
    decreases |requests|
  {
    if requests != [] {
      var last := requests[|requests| - 1];
      AcceptedRise(requests[..|requests| - 1], max, ip, if last.ip == ip then last.now else now);
    }
  }

  /** What one more request does to an address's window and accepted times. */
  lemma OneMoreRequest(before: seq<Request>, last: Request, max: int, ip: string)
    ensures
      var window, accepted := WindowOf(WindowsAfter(before, max), ip), Accepted(before, max, ip);
      var times := if |Recent(window, last.now)| < max then [last.now] else [];
      && WindowOf(WindowsAfter(before + [last], max), ip) ==
         (if last.ip == ip then Recent(window, last.now) + times else window)
      && Accepted(before + [last], max, ip) == (if last.ip == ip then accepted + times else accepted)
      && (last.ip == ip ==> (Allowed(WindowsAfter(before, max), last, max) <==> times != []))
  {
    assert (before + [last])[..|before + [last]| - 1] == before;
  }

  /** After every run, in whatever order of the times, each window is the end of the address's accepted times,
      and what is missing has expired by the time of some request of the run. */
  lemma {:induction false} WindowIsRecentHistory(requests: seq<Request>, max: int, ip: string, now: int)
    requires UpTo(requests, ip, now)
    ensures Tail(WindowOf(WindowsAfter(requests, max), ip), Accepted(requests, max, ip), now)
    decreases |requests|
  {
    if requests == [] {
      assert TailFrom([], [], now, 0);
    } else {
      var before, last := requests[..|requests| - 1], requests[|requests| - 1];
      var window, accepted := WindowOf(WindowsAfter(before, max), ip), Accepted(before, max, ip);
      assert requests == before + [last];
      OneMoreRequest(before, last, max, ip);
      WindowIsRecentHistory(before, max, ip, now);
      if last.ip == ip {
        RecentIsTail(window, accepted, last.now, now);
        TailStays(Recent(window, last.now), accepted, last.now, now);
      }
    }
  }

  lemma TailStays(window: seq<int>, accepted: seq<int>, time: int, now: int)
    requires Tail(window, accepted, now)
    ensures Tail(window + [time], accepted + [time], now)
  {
    var k: nat :| TailFrom(window, accepted, now, k);
    assert TailFrom(window + [time], accepted + [time], now, k);
  }

  /** A request is accepted exactly when fewer than the maximum of its address's requests have been
      accepted in the last second. */
  lemma AcceptedByTheLastSecond(requests: seq<Request>, request: Request, max: int)
    requires Ordered(requests, request.ip) && UpTo(requests, request.ip, request.now)
    ensures
      Allowed(WindowsAfter(requests, max), request, max) <==>
      CountIn(Accepted(requests, max, request.ip), request.now - WINDOW_MS + 1, request.now + 1) < max
  {
    AcceptedRise(requests, max, request.ip, request.now);
    WindowIsRecentHistory(requests, max, request.ip, request.now);
    AllowedByHistory(WindowsAfter(requests, max), Accepted(requests, max, request.ip), request, max);
  }

  lemma AllowedByHistory(windows: Windows, accepted: seq<int>, request: Request, max: int)
    requires Tail(WindowOf(windows, request.ip), accepted, request.now) && Rising(accepted, request.now)
    ensures
      Allowed(windows, request, max) <==>
      CountIn(accepted, request.now - WINDOW_MS + 1, request.now + 1) < max
  {
    RecentCountsTheLastSecond(WindowOf(windows, request.ip), accepted, request.now);
  }

  lemma {:induction false} WiderCountsMore(times: seq<int>, from: int, to: int, widerFrom: int, widerTo: int)
    requires widerFrom <= from && forall i :: 0 <= i < |times| ==> times[i] < widerTo
    ensures CountIn(times, from, to) <= CountIn(times, widerFrom, widerTo)
  {
    if times != [] {
      WiderCountsMore(times[..|times| - 1], from, to, widerFrom, widerTo);
    }
  }

  /** The rate is bounded: in no run does any second hold more accepted requests of an address than the
      maximum. */
  lemma {:induction false} RateIsBounded(requests: seq<Request>, max: int, ip: string, from: int)
    requires Ordered(requests, ip)
    ensures CountIn(Accepted(requests, max, ip), from, from + WINDOW_MS) <= if max > 0 then max else 0
    decreases |requests|
  {
    if requests != [] {
      var before, last := requests[..|requests| - 1], requests[|requests| - 1];
      RateIsBounded(before, max, ip, from);
      assert requests == before + [last];
      OneMoreRequest(before, last, max, ip);
      if last.ip == ip && Allowed(WindowsAfter(before, max), last, max) {
        AcceptedByTheLastSecond(before, last, max);
        AcceptedRise(before, max, ip, last.now);
        OneMoreTime(Accepted(before, max, ip), last.now, max, from);
      }
    }
  }

  lemma OneMoreTime(times: seq<int>, now: int, max: int, from: int)
    requires Rising(times, now) && CountIn(times, now - WINDOW_MS + 1, now + 1) < max
    requires CountIn(times, from, from + WINDOW_MS) <= max
    ensures CountIn(times + [now], from, from + WINDOW_MS) <= max
  {
    CountOneMore(times, now, from, from + WINDOW_MS);
    if from <= now < from + WINDOW_MS {
      WiderCountsMore(times, from, from + WINDOW_MS, now - WINDOW_MS + 1, now + 1);
    }
  }

  /** Whatever the order of the times, no window ever holds more than the maximum. */
  lemma {:induction false} WindowsStayShort(requests: seq<Request>, max: int, ip: string)
    ensures |WindowOf(WindowsAfter(requests, max), ip)| <= if max > 0 then max else 0
    decreases |requests|
  {
    if requests != [] {
      var before, last := requests[..|requests| - 1], requests[|requests| - 1];
      WindowsStayShort(before, max, ip);
      assert requests == before + [last];
      OneMoreRequest(before, last, max, ip);
      RecentIsShorter(WindowOf(WindowsAfter(before, max), ip), last.now);
    }
  }

  lemma {:induction false} RecentIsShorter(window: seq<int>, now: int)
    ensures |Recent(window, now)| <= |window|
  {
    if window != [] && now - window[0] >= WINDOW_MS {
      RecentIsShorter(window[1..], now);
    }
  }

  lemma CountOneMore(times: seq<int>, time: int, from: int, to: int)
    ensures CountIn(times + [time], from, to) == CountIn(times, from, to) + if from <= time < to then 1 else 0
  {
    assert (times + [time])[..|times|] == times;
  }

  // ----- the limiter

  /** The windows of the gateway, with the run of requests that made them what they are. */
  class RateLimiter {
    const maxHttpQpsPerIp: int
    var httpRateByIp: Windows
    ghost var requests: seq<Request>

    constructor (maxHttpQpsPerIp: int)
      ensures this.maxHttpQpsPerIp == maxHttpQpsPerIp && Valid() && requests == []
    {
      this.maxHttpQpsPerIp, httpRateByIp, requests := maxHttpQpsPerIp, map[], [];
    }

    ghost predicate Valid()
      reads this
    {
      httpRateByIp == WindowsAfter(requests, maxHttpQpsPerIp)
    }

    method CheckAndConsumeHttpQps(ip: string, now: int) returns (ok: bool)
      requires Valid()
      modifies this
      ensures Valid() && requests == old(requests) + [Request(ip, now)]
      ensures
        Accepted(requests, maxHttpQpsPerIp, ip) ==
        Accepted(old(requests), maxHttpQpsPerIp, ip) + if ok then [now] else []
      ensures
        Ordered(old(requests), ip) && UpTo(old(requests), ip, now) ==>
          (ok <==>
           CountIn(Accepted(old(requests), maxHttpQpsPerIp, ip), now - WINDOW_MS + 1, now + 1) < maxHttpQpsPerIp)
    {
      ghost var request := Request(ip, now);
      if Ordered(requests, ip) && UpTo(requests, ip, now) {
        AcceptedByTheLastSecond(requests, request, maxHttpQpsPerIp);
      }
      OneMoreCheck(requests, request, maxHttpQpsPerIp);
      var window := if ip in httpRateByIp then httpRateByIp[ip] else [];
      window := DropExpired(window, now);
      ok := |window| < maxHttpQpsPerIp;
      if ok {
        window := window + [now];
      }
      httpRateByIp := httpRateByIp[ip := window];
      requests := requests + [request];
    }
  }

  lemma OneMoreCheck(before: seq<Request>, last: Request, max: int)
    ensures WindowsAfter(before + [last], max) == Checked(WindowsAfter(before, max), last, max)
    ensures
      Accepted(before + [last], max, last.ip) ==
      Accepted(before, max, last.ip) + if Allowed(WindowsAfter(before, max), last, max) then [last.now] else []
  {
    assert (before + [last])[..|before + [last]| - 1] == before;
  }

  /** Drops the expired times from the front of a window. */
  method DropExpired(window: seq<int>, now: int) returns (recent: seq<int>)
    ensures recent == Recent(window, now)
  {
    recent := window;
    while recent != [] && now - recent[0] >= WINDOW_MS
      invariant Recent(recent, now) == Recent(window, now)
    {
      recent := recent[1..];
    }
  }
}
