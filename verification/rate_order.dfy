/** When the request limit needs the requests of an address to be checked in the order of their times: always,
    unless at most one of them is allowed in a second. */
module RateOrder {
  import opened RateLimit

  function Cap(max: int): nat { if max > 0 then max else 0 }

  ghost predicate SecondHolds(times: seq<int>, from: int, n: nat) {
    CountIn(times, from, from + WINDOW_MS) <= n
  }

  /** No second of the run holds more accepted requests of the address than the maximum. */
  ghost predicate Bounded(requests: seq<Request>, max: int, ip: string) {
    forall from :: SecondHolds(Accepted(requests, max, ip), from, Cap(max))
  }

  /** The window and the accepted times of an address after a run. */
  ghost predicate After(requests: seq<Request>, max: int, ip: string, window: seq<int>, accepted: seq<int>) {
    WindowOf(WindowsAfter(requests, max), ip) == window && Accepted(requests, max, ip) == accepted
  }

  /** One more request of an address that is accepted, given what is left of its window. */
  lemma AcceptedNext(before: seq<Request>, last: Request, max: int, window: seq<int>, recent: seq<int>,
                     accepted: seq<int>)
    requires After(before, max, last.ip, window, accepted)
    requires Recent(window, last.now) == recent && |recent| < max
    ensures After(before + [last], max, last.ip, recent + [last.now], accepted + [last.now])
  {
    OneMoreRequest(before, last, max, last.ip);
  }

  lemma {:induction false} AllExpire(window: seq<int>, now: int)
    requires forall i :: 0 <= i < |window| ==> now - window[i] >= WINDOW_MS
    ensures Recent(window, now) == []
  {
    if window != [] {
      AllExpire(window[1..], now);
    }
  }

  // ----- the same request again and again

  function Copies<T>(x: T, n: nat): (s: seq<T>)
    ensures |s| == n && forall i :: 0 <= i < n ==> s[i] == x
  {
    if n == 0 then [] else Copies(x, n - 1) + [x]
  }

  lemma {:induction false} CopiesAreAccepted(ip: string, now: int, max: int, n: nat)
    requires n <= max
    ensures After(Copies(Request(ip, now), n), max, ip, Copies(now, n), Copies(now, n))
  {
    if n > 0 {
      CopiesAreAccepted(ip, now, max, n - 1);
      AcceptedNext(Copies(Request(ip, now), n - 1), Request(ip, now), max, Copies(now, n - 1), Copies(now, n - 1),
                   Copies(now, n - 1));
    }
  }

  // ----- at most one request in a second

  ghost predicate Apart(times: seq<int>) {
    forall i, j :: 0 <= i < j < |times| ==> times[j] - times[i] >= WINDOW_MS
  }

  /** The accepted times are a second apart, and the window holds the last of them. */
  ghost predicate OneAtATime(window: seq<int>, times: seq<int>) {
    Apart(times) && window == if times == [] then [] else [times[|times| - 1]]
  }

  lemma OneAtATimeNext(window: seq<int>, times: seq<int>, now: int)
    requires OneAtATime(window, times)
    ensures
      var recent := Recent(window, now);
      var next := if |recent| < 1 then [now] else [];
      OneAtATime(recent + next, times + next)
  {
  }

  /** If one request is allowed in a second, those accepted are a second apart, in whatever order they come. */
  lemma {:induction false} AcceptedAreApart(requests: seq<Request>, ip: string)
    ensures OneAtATime(WindowOf(WindowsAfter(requests, 1), ip), Accepted(requests, 1, ip))
    decreases |requests|
  {
    if requests != [] {
      var before, last := requests[..|requests| - 1], requests[|requests| - 1];
      AcceptedAreApart(before, ip);
      assert requests == before + [last];
      OneMoreRequest(before, last, 1, ip);
      OneAtATimeNext(WindowOf(WindowsAfter(before, 1), ip), Accepted(before, 1, ip), last.now);
    }
  }

  lemma ApartCountsOnce(times: seq<int>, from: int)
    requires Apart(times)
    ensures CountIn(times, from, from + WINDOW_MS) <= 1
    decreases |times|
  {
    if times != [] {
      var n := |times| - 1;
      ApartCountsOnce(times[..n], from);
      if from <= times[n] < from + WINDOW_MS {
        OldTimesDoNotCount(times, n, from, from + WINDOW_MS);
        AllTimesCount(times[n..], from, from + WINDOW_MS);
      }
    }
  }

  lemma {:induction false} NothingIsAccepted(requests: seq<Request>, max: int, ip: string)
    requires max <= 0
    ensures Accepted(requests, max, ip) == []
    decreases |requests|
  {
    if requests != [] {
      NothingIsAccepted(requests[..|requests| - 1], max, ip);
    }
  }

  lemma FewAreBounded(requests: seq<Request>, max: int, ip: string)
    requires max <= 1
    ensures Bounded(requests, max, ip)
  {
    forall from
      ensures SecondHolds(Accepted(requests, max, ip), from, Cap(max))
    {
      if max == 1 {
        AcceptedAreApart(requests, ip);
        ApartCountsOnce(Accepted(requests, max, ip), from);
      } else {
        NothingIsAccepted(requests, max, ip);
      }
    }
  }

  // ----- a request that is overtaken

  lemma OrderedBoth(before: seq<Request>, ip: string, a: int, b: int)
    requires Ordered(before + [Request(ip, a)], ip) && a <= b
    ensures Ordered(before + [Request(ip, a)] + [Request(ip, b)], ip) && UpTo(before + [Request(ip, a)], ip, b)
  {
    var run := before + [Request(ip, a)];
    assert run[|before|] == Request(ip, a);
    forall i | 0 <= i < |run| && run[i].ip == ip
      ensures run[i].now <= a
    {
      if i < |before| {
        assert run[i].now <= run[|before|].now;
      }
    }
  }

  lemma OrderedIsBounded(requests: seq<Request>, max: int, ip: string)
    requires Ordered(requests, ip)
    ensures Bounded(requests, max, ip)
  {
    forall from
      ensures SecondHolds(Accepted(requests, max, ip), from, Cap(max))
    {
      RateIsBounded(requests, max, ip, from);
    }
  }

  /** A time that has expired by `a`, and by whose second `b` is not over if it is before `a`. */
  function TimeBefore(a: int, b: int): int {
    if b < a - WINDOW_MS then b else a - WINDOW_MS
  }

  lemma CopiesThenLaterAreOrdered(ip: string, time: int, a: int, n: nat)
    requires time <= a
    ensures Ordered(Copies(Request(ip, time), n) + [Request(ip, a)], ip)
  {
    var run := Copies(Request(ip, time), n) + [Request(ip, a)];
    assert forall i :: 0 <= i < |run| ==> run[i].now == if i < n then time else a;
  }

  lemma ExpiredMakeRoom(ip: string, time: int, a: int, max: int)
    requires max > 0 && a - time >= WINDOW_MS
    ensures After(Copies(Request(ip, time), max) + [Request(ip, a)], max, ip, [a], Copies(time, max) + [a])
  {
    var before, times := Copies(Request(ip, time), max), Copies(time, max);
    CopiesAreAccepted(ip, time, max, max);
    AllExpire(times, a);
    AcceptedNext(before, Request(ip, a), max, times, [], times);
    assert [] + [a] == [a];
  }

  lemma OvertakenIsAccepted(ip: string, time: int, a: int, b: int, max: int)
    requires max > 1 && a - time >= WINDOW_MS && b < a
    ensures
      Accepted(Copies(Request(ip, time), max) + [Request(ip, a)] + [Request(ip, b)], max, ip) ==
      Copies(time, max) + [a] + [b]
  {
    ExpiredMakeRoom(ip, time, a, max);
    AcceptedNext(Copies(Request(ip, time), max) + [Request(ip, a)], Request(ip, b), max, [a], [a],
                 Copies(time, max) + [a]);
  }

  lemma SecondOfTheFirst(time: int, a: int, b: int, n: nat)
    requires a - time >= WINDOW_MS && time <= b < time + WINDOW_MS
    ensures CountIn(Copies(time, n) + [a] + [b], time, time + WINDOW_MS) == n + 1
  {
    CountOneMore(Copies(time, n) + [a], b, time, time + WINDOW_MS);
    CountOneMore(Copies(time, n), a, time, time + WINDOW_MS);
    AllTimesCount(Copies(time, n), time, time + WINDOW_MS);
  }

  /** As many requests as are allowed, then one that finds them expired, then one that it has overtaken: the
      last belongs to the second of the first ones, and is accepted too. */
  lemma OvertakenIsTooMany(ip: string, a: int, b: int, max: int)
    requires max > 1 && b < a
    ensures
      var before := Copies(Request(ip, TimeBefore(a, b)), max);
      && Ordered(before + [Request(ip, a)], ip)
      && !Bounded(before + [Request(ip, a)] + [Request(ip, b)], max, ip)
  {
    var time := TimeBefore(a, b);
    CopiesThenLaterAreOrdered(ip, time, a, max);
    OvertakenIsAccepted(ip, time, a, b, max);
    SecondOfTheFirst(time, a, b, max);
    assert !SecondHolds(Copies(time, max) + [a] + [b], time, Cap(max));
  }

  /** A run that was in order up to a request at time `a`, and then checks one of time `b`, is bounded. */
  ghost predicate BoundedBehind(before: seq<Request>, ip: string, a: int, b: int, max: int) {
    Ordered(before + [Request(ip, a)], ip) ==> Bounded(before + [Request(ip, a)] + [Request(ip, b)], max, ip)
  }

  /** The next request keeps the bound, whatever came before it in order, exactly if it has not been overtaken
      or at most one request is allowed in a second. However little it is late, it can be one too many. */
  lemma OrderIsNeeded(ip: string, a: int, b: int, max: int)
    ensures (forall before :: BoundedBehind(before, ip, a, b, max)) <==> a <= b || max <= 1
  {
    forall before | a <= b || max <= 1
      ensures BoundedBehind(before, ip, a, b, max)
    {
      if max <= 1 {
        FewAreBounded(before + [Request(ip, a)] + [Request(ip, b)], max, ip);
      } else if Ordered(before + [Request(ip, a)], ip) {
        OrderedBoth(before, ip, a, b);
        OrderedIsBounded(before + [Request(ip, a)] + [Request(ip, b)], max, ip);
      }
    }
    if b < a && max > 1 {
      OvertakenIsTooMany(ip, a, b, max);
      assert !BoundedBehind(Copies(Request(ip, TimeBefore(a, b)), max), ip, a, b, max);
    }
  }

  // ----- what decides

  /** The request is accepted exactly when the last second before it allows for it. */
  ghost predicate DecidedByTheLastSecond(requests: seq<Request>, request: Request, max: int) {
    Allowed(WindowsAfter(requests, max), request, max) <==>
    CountIn(Accepted(requests, max, request.ip), request.now - WINDOW_MS + 1, request.now + 1) < max
  }

  ghost predicate DecidedBehind(before: seq<Request>, ip: string, a: int, b: int, max: int) {
    Ordered(before + [Request(ip, a)], ip) ==>
      DecidedByTheLastSecond(before + [Request(ip, a)], Request(ip, b), max)
  }

  /** A request that has been overtaken by as many as are allowed is refused, though none lies in the second
      before it. */
  lemma OvertakenIsRefused(ip: string, a: int, b: int, max: int)
    requires max > 0 && b < a
    ensures !DecidedBehind(Copies(Request(ip, a), max - 1), ip, a, b, max)
  {
    var before := Copies(Request(ip, a), max - 1);
    CopiesAreAccepted(ip, a, max, max);
    assert before + [Request(ip, a)] == Copies(Request(ip, a), max);
    OldTimesOrNewDoNotCount(Copies(a, max), b - WINDOW_MS + 1, b + 1);
  }

  lemma {:induction false} OldTimesOrNewDoNotCount(times: seq<int>, from: int, to: int)
    requires forall i :: 0 <= i < |times| ==> times[i] < from || times[i] >= to
    ensures CountIn(times, from, to) == 0
  {
    if times != [] {
      OldTimesOrNewDoNotCount(times[..|times| - 1], from, to);
    }
  }

  /** The last second decides about the next request, whatever came before it in order, exactly if it has not
      been overtaken or nothing is allowed at all. */
  lemma DecisionNeedsTheOrder(ip: string, a: int, b: int, max: int)
    ensures (forall before :: DecidedBehind(before, ip, a, b, max)) <==> a <= b || max <= 0
  {
    forall before | a <= b || max <= 0
      ensures DecidedBehind(before, ip, a, b, max)
    {
      if a <= b && Ordered(before + [Request(ip, a)], ip) {
        OrderedBoth(before, ip, a, b);
        AcceptedByTheLastSecond(before + [Request(ip, a)], Request(ip, b), max);
      }
    }
    if b < a && max > 0 {
      OvertakenIsRefused(ip, a, b, max);
    }
  }
}
