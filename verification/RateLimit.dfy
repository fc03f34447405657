/** The sliding-window limiter over a sorted set. */
module RateLimit {
  /** A member of the sorted set: the score is the time, the rest makes members differ. */
  datatype Member = Member(score: real, unique: nat)

  /** One request that reached the limiter, and whether it was allowed. */
  datatype Request = Request(at: real, allowed: bool)

  /** `zremrangebyscore key 0 cutoff` */
  function Trimmed(members: set<Member>, cutoff: real): set<Member> {
    set m | m in members && !(0.0 <= m.score <= cutoff)
  }

  /** The sorted set, with what has been asked of it. */
  datatype State = State(members: set<Member>, requests: seq<Request>)

  /** `_allow`: trim, add, count. */
  function Allow(s: State, now: real, unique: nat, limit: int, window: int): (State, bool) {
    var members := Trimmed(s.members, now - window as real) + {Member(now, unique)};
    var allowed := |members| <= limit;
    (State(members, s.requests + [Request(now, allowed)]), allowed)
  }

  /** The key ran out of its time to live, and the set with it. */
  function Expired(s: State): State {
    s.(members := {})
  }

  /** One request at a clock reading, and whether the key expired since the request before. */
  datatype Visit = Visit(at: real, expired: bool)

  /** A run, in the order of execution; the request's number makes its member unique. */
  function Run(visits: seq<Visit>, limit: int, window: int): (s: State)
    ensures |s.requests| == |visits|
  {
    if |visits| == 0 then State({}, [])
    else
      var n := |visits| - 1;
      var s := Run(visits[..n], limit, window);
      Allow(if visits[n].expired then Expired(s) else s, visits[n].at, n, limit, window).0
  }

  /** The clock does not go back. Every request sets the time to live of the key to one window. */
  predicate IsClock(visits: seq<Visit>, window: int) {
    && (forall i :: 0 <= i < |visits| ==> visits[i].at >= 0.0)
    && (forall i, j :: 0 <= i <= j < |visits| ==> visits[i].at <= visits[j].at)
    && forall i :: 0 < i < |visits| && visits[i].expired ==> visits[i].at >= visits[i - 1].at + window as real
  }

  // ------------------------------------------------------------------ what the set holds

  /** A request of the window that ends with the last one. */
  predicate IsYoung(visits: seq<Visit>, window: int, m: Member) {
    && m.unique < |visits| && m.score == visits[m.unique].at
    && m.score > visits[|visits| - 1].at - window as real
  }

  lemma ClockPrefix(visits: seq<Visit>, window: int)
    requires IsClock(visits, window) && |visits| > 0
    ensures IsClock(visits[..|visits| - 1], window)
    ensures visits[|visits| - 1].at >= 0.0
    ensures |visits| > 1 ==> visits[..|visits| - 1][|visits| - 2].at <= visits[|visits| - 1].at
  {}

  /** The set holds every request of the window, denied ones too, and nothing else. */
  lemma {:induction false} HoldsTheWindow(visits: seq<Visit>, limit: int, window: int, m: Member)
    requires IsClock(visits, window) && |visits| > 0 && window > 0
    ensures m in Run(visits, limit, window).members <==> IsYoung(visits, window, m)
  {
    var n := |visits| - 1;
    var front := visits[..n];
    ClockPrefix(visits, window);
    if n > 0 { HoldsTheWindow(front, limit, window, m); }
    assert IsYoung(visits, window, m) ==> m.score >= 0.0;
    assert visits[n].expired && m.unique < n ==> visits[m.unique].at <= visits[n - 1].at;
  }

  /** The members of an earlier visit are trimmed by a request that comes a window later. */
  lemma AllAreOld(visits: seq<Visit>, limit: int, window: int, now: real)
    requires IsClock(visits, window) && |visits| > 0 && window > 0
    requires now >= visits[|visits| - 1].at + window as real
    ensures Trimmed(Run(visits, limit, window).members, now - window as real) == {}
  {
    forall m | m in Run(visits, limit, window).members ensures 0.0 <= m.score <= now - window as real {
      HoldsTheWindow(visits, limit, window, m);
      assert m.score <= visits[|visits| - 1].at;
    }
  }

  /** The same requests for a key that never expires. */
  function Unexpired(visits: seq<Visit>): (r: seq<Visit>)
    ensures |r| == |visits|
    ensures forall i :: 0 <= i < |visits| ==> r[i] == visits[i].(expired := false)
  {
    seq(|visits|, i requires 0 <= i < |visits| => visits[i].(expired := false))
  }

  lemma TrimmedAnyway(s: State, now: real, unique: nat, limit: int, window: int)
    requires Trimmed(s.members, now - window as real) == {}
    ensures Allow(Expired(s), now, unique, limit, window) == Allow(s, now, unique, limit, window)
  {
    assert Trimmed({}, now - window as real) == {};
  }

  lemma ExpiredIsOld(visits: seq<Visit>, limit: int, window: int)
    requires IsClock(visits, window) && window > 0 && |visits| > 0 && visits[|visits| - 1].expired
    ensures var n := |visits| - 1;
            Trimmed(Run(visits[..n], limit, window).members, visits[n].at - window as real) == {}
  {
    var n := |visits| - 1;
    ClockPrefix(visits, window);
    if n > 0 { AllAreOld(visits[..n], limit, window, visits[n].at); }
  }

  /** The key's time to live changes no answer and no set, however often it runs out. */
  lemma {:induction false} ExpiryLosesNothing(visits: seq<Visit>, limit: int, window: int)
    requires IsClock(visits, window) && window > 0
    ensures Run(visits, limit, window) == Run(Unexpired(visits), limit, window)
  {
    hide Allow, Trimmed, IsClock, Expired;
    if |visits| > 0 {
      var n := |visits| - 1;
      ClockPrefix(visits, window);
      ExpiryLosesNothing(visits[..n], limit, window);
      assert Unexpired(visits)[..n] == Unexpired(visits[..n]);
      if visits[n].expired {
        ExpiredIsOld(visits, limit, window);
        TrimmedAnyway(Run(visits[..n], limit, window), visits[n].at, n, limit, window);
      }
    }
  }

  // ------------------------------------------------------------------ the promise

  /** Half-open intervals of one window, open at either end. */
  datatype Interval = FromStart(start: real) | ToEnd(start: real)

  predicate Contains(i: Interval, window: int, t: real) {
    match i
    case FromStart(start) => start <= t < start + window as real
    case ToEnd(start) => start < t <= start + window as real
  }

  function AllowedIn(requests: seq<Request>, i: Interval, window: int): nat {
    if |requests| == 0 then 0
    else
      var last := requests[|requests| - 1];
      AllowedIn(requests[..|requests| - 1], i, window) +
      if last.allowed && Contains(i, window, last.at) then 1 else 0
  }

  /** The count is that of the allowed requests of the interval. */
  lemma {:induction false} AllowedAreCounted(requests: seq<Request>, i: Interval, window: int)
    ensures AllowedIn(requests, i, window) ==
            |set k | 0 <= k < |requests| && requests[k].allowed && Contains(i, window, requests[k].at)|
  {
    hide Contains;
    if |requests| > 0 {
      var n := |requests| - 1;
      AllowedAreCounted(requests[..n], i, window);
      var before := set k | 0 <= k < n && requests[..n][k].allowed && Contains(i, window, requests[..n][k].at);
      var all := set k | 0 <= k < |requests| && requests[k].allowed && Contains(i, window, requests[k].at);
      assert all == before + if requests[n].allowed && Contains(i, window, requests[n].at) then {n} else {};
    }
  }

  /** The requests of the interval, allowed or not. */
  function Within(visits: seq<Visit>, n: nat, i: Interval, window: int): (ms: set<Member>)
    requires n <= |visits|
    ensures forall m :: m in ms ==> m.unique < n && m.score == visits[m.unique].at && Contains(i, window, m.score)
  {
    if n == 0 then {}
    else
      Within(visits, n - 1, i, window) +
      if Contains(i, window, visits[n - 1].at) then {Member(visits[n - 1].at, n - 1)} else {}
  }

  lemma {:induction false} AllowedAreWithin(visits: seq<Visit>, limit: int, window: int, i: Interval,
      all: seq<Visit>)
    requires visits <= all
    ensures AllowedIn(Run(visits, limit, window).requests, i, window) <= |Within(all, |visits|, i, window)|
  {
    hide Contains;
    if |visits| > 0 {
      var n := |visits| - 1;
      AllowedAreWithin(visits[..n], limit, window, i, all);
      LastRequest(visits, limit, window);
      assert Member(all[n].at, n) !in Within(all, n, i, window);
    }
  }

  lemma LastRequest(visits: seq<Visit>, limit: int, window: int)
    requires |visits| > 0
    ensures var n := |visits| - 1;
            var s := Run(visits, limit, window);
            && s.requests[..n] == Run(visits[..n], limit, window).requests && s.requests[n].at == visits[n].at
            && s.requests[n].allowed == (|s.members| <= limit)
  {}

  lemma SubsetIsSmaller(a: set<Member>, b: set<Member>)
    requires a <= b
    ensures |a| <= |b|
  {
    assert b == a + (b - a);
  }

  /** An interval of one window that the last request is in holds no request the set has lost. */
  lemma WithinIsHeld(visits: seq<Visit>, limit: int, window: int, i: Interval)
    requires IsClock(visits, window) && |visits| > 0 && Contains(i, window, visits[|visits| - 1].at)
    ensures Within(visits, |visits|, i, window) <= Run(visits, limit, window).members
  {
    forall m | m in Within(visits, |visits|, i, window) ensures m in Run(visits, limit, window).members {
      HoldsTheWindow(visits, limit, window, m);
    }
  }

  /** Any half-open interval of a window holds at most `limit` allowed requests, in every run. */
  lemma {:induction false} AtMostLimit(visits: seq<Visit>, limit: int, window: int, i: Interval)
    requires IsClock(visits, window)
    ensures AllowedIn(Run(visits, limit, window).requests, i, window) <= if limit > 0 then limit else 0
  {
    hide Contains, Run;
    if |visits| == 0 {
      assert Run(visits, limit, window).requests == [];
    } else {
      var n := |visits| - 1;
      ClockPrefix(visits, window);
      AtMostLimit(visits[..n], limit, window, i);
      LastRequest(visits, limit, window);
      var s := Run(visits, limit, window);
      if s.requests[n].allowed && Contains(i, window, visits[n].at) {
        AllowedAreWithin(visits, limit, window, i, visits);
        WithinIsHeld(visits, limit, window, i);
        SubsetIsSmaller(Within(visits, |visits|, i, window), s.members);
      }
    }
  }

  /** A request is denied only when its window, itself included, holds more than `limit` requests. */
  lemma DeniedExactly(visits: seq<Visit>, limit: int, window: int)
    requires IsClock(visits, window) && |visits| > 0 && window > 0
    ensures var n := |visits| - 1;
            Run(visits, limit, window).requests[n].allowed <==>
              |Within(visits, |visits|, Ending(visits, window), window)| <= limit
  {
    hide Run, IsYoung, Contains, IsClock;
    var members := Run(visits, limit, window).members;
    var i := Ending(visits, window);
    LastIsWithin(visits, window);
    WithinIsHeld(visits, limit, window, i);
    forall m | m in members ensures m in Within(visits, |visits|, i, window) {
      HoldsTheWindow(visits, limit, window, m);
      YoungIsWithin(visits, window, m);
    }
    assert members == Within(visits, |visits|, i, window);
    LastRequest(visits, limit, window);
  }

  /** The window that ends with the last request. */
  function Ending(visits: seq<Visit>, window: int): Interval
    requires |visits| > 0
  {
    ToEnd(visits[|visits| - 1].at - window as real)
  }

  lemma LastIsWithin(visits: seq<Visit>, window: int)
    requires |visits| > 0 && window > 0
    ensures Contains(Ending(visits, window), window, visits[|visits| - 1].at)
  {}

  lemma YoungIsWithin(visits: seq<Visit>, window: int, m: Member)
    requires IsClock(visits, window) && |visits| > 0 && window > 0 && IsYoung(visits, window, m)
    ensures m in Within(visits, |visits|, Ending(visits, window), window)
  {
    assert visits[m.unique].at <= visits[|visits| - 1].at;
    MemberIsWithin(visits, |visits|, Ending(visits, window), window, m);
  }

  lemma {:induction false} MemberIsWithin(visits: seq<Visit>, n: nat, i: Interval, window: int, m: Member)
    requires n <= |visits| && m.unique < n && m.score == visits[m.unique].at && Contains(i, window, m.score)
    ensures m in Within(visits, n, i, window)
  {
    if m.unique < n - 1 { MemberIsWithin(visits, n - 1, i, window, m); }
  }

  // ------------------------------------------------------------------ the limiter

  /** One key of the limiter, as Redis keeps it. */
  class Limiter {
    var members: set<Member>
    var count: nat
    const limit: int
    const window: int
    ghost var requests: seq<Request>

    constructor (limit: int, window: int)
      ensures members == {} && count == 0 && requests == [] && this.limit == limit && this.window == window
    {
      members, count, requests, this.limit, this.window := {}, 0, [], limit, window;
    }

    /** What Redis does to a key whose time to live ran out. */
    method ExpireKey()
      modifies this`members
      ensures State(members, requests) == Expired(old(State(members, requests)))
    {
      members := {};
    }

    /** `_allow`; the pipeline is one transaction. */
    method AllowRequest(now: real) returns (allowed: bool)
      modifies this
      ensures (State(members, requests), allowed) ==
              Allow(old(State(members, requests)), now, old(count), limit, window)
      ensures count == old(count) + 1
    {
      var cutoff := now - window as real;
      members := set m | m in members && !(0.0 <= m.score <= cutoff);
      members := members + {Member(now, count)};
      count := count + 1;
      allowed := |members| <= limit;
      requests := requests + [Request(now, allowed)];
    }
  }
}
