/** A token bucket per user, refilled lazily on each call. */
module RateLimit {

  datatype Limits = Limits(rate: real, burst: real)

  datatype Bucket = Bucket(tokens: real, lastFill: real)

  type Users = map<string, Bucket>

  datatype Call = Call(user: string, at: real)

  // The limiter counts only when the rate is positive; otherwise every call succeeds.
  ghost predicate Limiting(l: Limits) {
    l.rate > 0.0 && l.burst >= 1.0
  }

  function Min(a: real, b: real): real {
    if a <= b then a else b
  }

  // Tokens added over some time; the proofs below use only RefillAdds about it.
  function Refill(rate: real, elapsed: real): real {
    elapsed * rate
  }

  // ---------- The ideal bucket ----------

  // The level at time t of a bucket that is refilled continuously up to its capacity.
  ghost function Level(l: Limits, users: Users, user: string, t: real): real {
    if user !in users then l.burst
    else Min(l.burst, users[user].tokens + Refill(l.rate, t - users[user].lastFill))
  }

  // No bucket is ahead of the clock or over its capacity.
  ghost predicate ClockOk(l: Limits, users: Users, now: real) {
    forall u :: u in users ==> users[u].lastFill <= now && 0.0 <= users[u].tokens <= l.burst
  }

  // ---------- One call ----------

  function AfterAllow(l: Limits, users: Users, c: Call): (Users, bool) {
    if l.rate <= 0.0 then (users, true)
    else
      var b := if c.user in users then users[c.user] else Bucket(l.burst, c.at);
      var tokens := Min(l.burst, b.tokens + Refill(l.rate, c.at - b.lastFill));
      if tokens < 1.0 then (users[c.user := Bucket(tokens, c.at)], false)
      else (users[c.user := Bucket(tokens - 1.0, c.at)], true)
  }

  // Refill over adjacent intervals adds up and is never negative.
  lemma RefillAdds(a: real, b: real, c: real, rate: real)
    requires a <= b <= c && rate > 0.0
    ensures Refill(rate, c - a) == Refill(rate, b - a) + Refill(rate, c - b)
    ensures Refill(rate, b - a) >= 0.0 && Refill(rate, c - b) >= 0.0 && Refill(rate, 0.0) == 0.0
  {
  }

  lemma RefillInTwoSteps(burst: real, x: real, g: real, h: real)
    requires h >= 0.0
    ensures Min(burst, Min(burst, x + g) + h) == Min(burst, x + (g + h))
  {
  }

  // The bucket left by a call: the ideal level of that moment, less the token taken.
  lemma BucketAfterCall(l: Limits, users: Users, c: Call)
    requires Limiting(l)
    ensures var (users', ok) := AfterAllow(l, users, c);
      var level := Level(l, users, c.user, c.at);
      && (ok <==> level >= 1.0)
      && users' == users[c.user := Bucket(level - (if ok then 1.0 else 0.0), c.at)]
  {
    hide Refill;
    var b := if c.user in users then users[c.user] else Bucket(l.burst, c.at);
    var g := Refill(l.rate, c.at - b.lastFill);
    RefillAdds(c.at, c.at, c.at, l.rate);
    assert Level(l, users, c.user, c.at) == Min(l.burst, b.tokens + g);
  }

  lemma LevelNotNegative(l: Limits, users: Users, user: string, t: real)
    requires Limiting(l) && ClockOk(l, users, t)
    ensures 0.0 <= Level(l, users, user, t) <= l.burst
  {
    hide Refill;
    if user in users {
      var b := users[user];
      RefillAdds(b.lastFill, t, t, l.rate);
      var g := Refill(l.rate, t - b.lastFill);
      assert g >= 0.0;
      assert b.tokens >= 0.0;
      assert Min(l.burst, b.tokens + g) >= 0.0;
      assert Level(l, users, user, t) == Min(l.burst, b.tokens + g);
    }
  }

  /** A call succeeds exactly when the ideal bucket holds a token, and takes exactly that token:
      at every later time the ideal level is lower by what the call took, up to the capacity. */
  lemma CallTakesOne(l: Limits, users: Users, c: Call, t: real)
    requires Limiting(l) && ClockOk(l, users, c.at) && c.at <= t
    ensures var (users', ok) := AfterAllow(l, users, c);
      var taken := if ok then 1.0 else 0.0;
      && (ok <==> Level(l, users, c.user, c.at) >= 1.0)
      && Level(l, users', c.user, t) == Min(l.burst, Level(l, users, c.user, c.at) - taken + Refill(l.rate, t - c.at))
      && (!ok ==> Level(l, users', c.user, t) == Level(l, users, c.user, t))
      && ClockOk(l, users', c.at)
  {
    hide Refill;
    BucketAfterCall(l, users, c);
    LevelNotNegative(l, users, c.user, c.at);
    if c.user in users {
      var b := users[c.user];
      RefillAdds(b.lastFill, c.at, t, l.rate);
      RefillInTwoSteps(l.burst, b.tokens, Refill(l.rate, c.at - b.lastFill), Refill(l.rate, t - c.at));
    }
  }

  lemma OthersKeepLevel(l: Limits, users: Users, c: Call, user: string, t: real)
    requires user != c.user
    ensures Level(l, AfterAllow(l, users, c).0, user, t) == Level(l, users, user, t)
  {
  }

  // Waiting adds at most rate times the time waited, and never passes the capacity.
  lemma LevelGrowsSlowly(l: Limits, users: Users, user: string, t0: real, t1: real)
    requires Limiting(l) && ClockOk(l, users, t0) && t0 <= t1
    ensures Level(l, users, user, t0) <= Level(l, users, user, t1) <= l.burst
    ensures Level(l, users, user, t1) <= Level(l, users, user, t0) + Refill(l.rate, t1 - t0)
  {
    hide Refill;
    RefillAdds(t0, t0, t1, l.rate);
    if user in users {
      RefillAdds(users[user].lastFill, t0, t1, l.rate);
    }
  }

  // ---------- Runs ----------

  function Run(l: Limits, users: Users, calls: seq<Call>): (Users, seq<bool>)
    decreases |calls|
  {
    if calls == [] then (users, [])
    else
      var (users', ok) := AfterAllow(l, users, calls[0]);
      var (end, oks) := Run(l, users', calls[1..]);
      (end, [ok] + oks)
  }

  ghost predicate InOrder(calls: seq<Call>, start: real) {
    && (forall i :: 0 <= i < |calls| ==> start <= calls[i].at)
    && (forall i, j :: 0 <= i < j < |calls| ==> calls[i].at <= calls[j].at)
  }

  ghost function Successes(calls: seq<Call>, oks: seq<bool>, user: string): nat
    requires |calls| == |oks|
  {
    if calls == [] then 0
    else (if calls[0].user == user && oks[0] then 1 else 0) + Successes(calls[1..], oks[1..], user)
  }

  lemma {:induction false} RunLength(l: Limits, users: Users, calls: seq<Call>)
    ensures |Run(l, users, calls).1| == |calls|
    decreases |calls|
  {
    if calls != [] {
      RunLength(l, AfterAllow(l, users, calls[0]).0, calls[1..]);
    }
  }

  lemma CallKeepsClock(l: Limits, users: Users, c: Call)
    requires Limiting(l) && ClockOk(l, users, c.at)
    ensures ClockOk(l, AfterAllow(l, users, c).0, c.at)
  {
    hide Refill;
    CallTakesOne(l, users, c, c.at);
  }

  // Successes up to time t are paid for by the level at the start and the refill since.
  lemma {:induction false} SuccessesArePaid(l: Limits, users: Users, calls: seq<Call>, user: string, start: real, t: real)
    requires Limiting(l) && ClockOk(l, users, start) && InOrder(calls, start)
    requires start <= t && forall i :: 0 <= i < |calls| ==> calls[i].at <= t
    ensures |Run(l, users, calls).1| == |calls|
    ensures Successes(calls, Run(l, users, calls).1, user) as real
            <= Level(l, users, user, start) + Refill(l.rate, t - start)
    decreases |calls|
  {
    hide Refill;
    RunLength(l, users, calls);
    RefillAdds(start, start, t, l.rate);
    if calls == [] {
      LevelNotNegative(l, users, user, start);
    } else {
      var c, rest := calls[0], calls[1..];
      var users' := AfterAllow(l, users, c).0;
      LaterClock(l, users, start, c.at);
      CallKeepsClock(l, users, c);
      RestInOrder(calls, start);
      SuccessesArePaid(l, users', rest, user, c.at, t);
      RunSplits(l, users, calls, user);
      OneCallIsPaid(l, users, c, user, start);
      RefillAdds(start, c.at, t, l.rate);
    }
  }

  // The count and the answers of a run, split after its first call.
  lemma RunSplits(l: Limits, users: Users, calls: seq<Call>, user: string)
    requires calls != [] && |Run(l, users, calls).1| == |calls|
    ensures var users' := AfterAllow(l, users, calls[0]).0;
      && Run(l, users, calls).1 == [AfterAllow(l, users, calls[0]).1] + Run(l, users', calls[1..]).1
      && |Run(l, users', calls[1..]).1| == |calls| - 1
      && Successes(calls, Run(l, users, calls).1, user) ==
           (if calls[0].user == user && AfterAllow(l, users, calls[0]).1 then 1 else 0)
           + Successes(calls[1..], Run(l, users', calls[1..]).1, user)
  {
    var users' := AfterAllow(l, users, calls[0]).0;
    assert Run(l, users, calls).1[1..] == Run(l, users', calls[1..]).1;
  }

  lemma OneCallIsPaid(l: Limits, users: Users, c: Call, user: string, start: real)
    requires Limiting(l) && ClockOk(l, users, start) && start <= c.at
    ensures var (users', ok) := AfterAllow(l, users, c);
      (if c.user == user && ok then 1.0 else 0.0) + Level(l, users', user, c.at)
      <= Level(l, users, user, start) + Refill(l.rate, c.at - start)
  {
    hide Refill;
    LaterClock(l, users, start, c.at);
    LevelGrowsSlowly(l, users, user, start, c.at);
    if c.user == user {
      BucketAfterCall(l, users, c);
      RefillAdds(c.at, c.at, c.at, l.rate);
    } else {
      OthersKeepLevel(l, users, c, user, c.at);
    }
  }

  lemma LaterClock(l: Limits, users: Users, t0: real, t1: real)
    requires ClockOk(l, users, t0) && t0 <= t1
    ensures ClockOk(l, users, t1)
  {
  }

  lemma RestInOrder(calls: seq<Call>, start: real)
    requires calls != [] && InOrder(calls, start)
    ensures InOrder(calls[1..], calls[0].at)
  {
    var rest := calls[1..];
    forall i | 0 <= i < |rest| ensures calls[0].at <= rest[i].at {
      assert rest[i] == calls[i + 1];
    }
  }

  /** In any time interval of length T a user gets at most burst + rate * T successes, whatever
      happened before and whatever other users do. */
  lemma BurstPlusRate(l: Limits, users: Users, calls: seq<Call>, user: string, start: real, end: real)
    requires Limiting(l) && ClockOk(l, users, start) && InOrder(calls, start)
    requires start <= end && forall i :: 0 <= i < |calls| ==> calls[i].at <= end
    ensures |Run(l, users, calls).1| == |calls|
    ensures Successes(calls, Run(l, users, calls).1, user) as real <= l.burst + (end - start) * l.rate
  {
    hide *;
    BurstPlusRefill(l, users, calls, user, start, end);
    RefillIsProduct(l.rate, end - start);
  }

  lemma RefillIsProduct(rate: real, elapsed: real)
    ensures Refill(rate, elapsed) == elapsed * rate
  {
  }

  lemma BurstPlusRefill(l: Limits, users: Users, calls: seq<Call>, user: string, start: real, end: real)
    requires Limiting(l) && ClockOk(l, users, start) && InOrder(calls, start)
    requires start <= end && forall i :: 0 <= i < |calls| ==> calls[i].at <= end
    ensures |Run(l, users, calls).1| == |calls|
    ensures Successes(calls, Run(l, users, calls).1, user) as real <= l.burst + Refill(l.rate, end - start)
  {
    hide Refill;
    SuccessesArePaid(l, users, calls, user, start, end);
    LevelGrowsSlowly(l, users, user, start, start);
  }

  // ---------- Independence ----------

  function CallsOf(calls: seq<Call>, user: string): seq<Call> {
    if calls == [] then []
    else (if calls[0].user == user then [calls[0]] else []) + CallsOf(calls[1..], user)
  }

  function AnswersTo(calls: seq<Call>, oks: seq<bool>, user: string): seq<bool>
    requires |calls| == |oks|
  {
    if calls == [] then []
    else (if calls[0].user == user then [oks[0]] else []) + AnswersTo(calls[1..], oks[1..], user)
  }

  ghost predicate SameBucket(a: Users, b: Users, user: string) {
    (user in a <==> user in b) && (user in a ==> a[user] == b[user])
  }

  /** A user gets the same answers as if nobody else were calling. */
  lemma {:induction false} UsersAreIndependent(l: Limits, users: Users, alone: Users, calls: seq<Call>, user: string)
    requires SameBucket(users, alone, user)
    ensures |Run(l, users, calls).1| == |calls|
    ensures AnswersTo(calls, Run(l, users, calls).1, user) == Run(l, alone, CallsOf(calls, user)).1
    decreases |calls|
  {
    hide Refill;
    RunLength(l, users, calls);
    if calls != [] {
      var c, rest := calls[0], calls[1..];
      var users' := AfterAllow(l, users, c).0;
      RunSplits(l, users, calls, user);
      if c.user == user {
        var alone' := AfterAllow(l, alone, c).0;
        SameAnswer(l, users, alone, c);
        UsersAreIndependent(l, users', alone', rest, user);
        var mine := [c] + CallsOf(rest, user);
        assert mine[1..] == CallsOf(rest, user);
        RunLength(l, alone, mine);
        RunSplits(l, alone, mine, user);
      } else {
        UsersAreIndependent(l, users', alone, rest, user);
        assert [] + CallsOf(rest, user) == CallsOf(rest, user);
        assert Run(l, users, calls).1[1..] == Run(l, users', rest).1;
      }
    }
  }

  lemma SameAnswer(l: Limits, users: Users, alone: Users, c: Call)
    requires SameBucket(users, alone, c.user)
    ensures AfterAllow(l, users, c).1 == AfterAllow(l, alone, c).1
    ensures SameBucket(AfterAllow(l, users, c).0, AfterAllow(l, alone, c).0, c.user)
  {
    hide Refill;
  }

  // ---------- A steady user is never refused ----------

  ghost predicate Spaced(l: Limits, calls: seq<Call>) {
    forall i :: 0 <= i < |calls| - 1 ==> TokenApart(l, calls[i], calls[i + 1])
  }

  ghost predicate TokenApart(l: Limits, a: Call, b: Call) {
    Refill(l.rate, b.at - a.at) >= 1.0
  }

  // ---------- An independent bucket ----------

  /** A bucket that is full at the start and knows nothing but what happened to it. */
  datatype Ideal = Ideal(level: real, at: real)

  // It is topped up at any moments whatever, and now and then somebody tries to take a token.
  datatype Moment = TopUp(at: real) | Attempt(at: real)

  function ToppedUp(l: Limits, b: Ideal, t: real): Ideal {
    Ideal(Min(l.burst, b.level + Refill(l.rate, t - b.at)), t)
  }

  function Answers(l: Limits, b: Ideal, moments: seq<Moment>): seq<bool>
    decreases |moments|
  {
    if moments == [] then []
    else
      var b1 := ToppedUp(l, b, moments[0].at);
      if moments[0].TopUp? then Answers(l, b1, moments[1..])
      else if b1.level < 1.0 then [false] + Answers(l, b1, moments[1..])
      else [true] + Answers(l, b1.(level := b1.level - 1.0), moments[1..])
  }

  function Attempts(moments: seq<Moment>, user: string): seq<Call> {
    if moments == [] then []
    else (if moments[0].Attempt? then [Call(user, moments[0].at)] else []) + Attempts(moments[1..], user)
  }

  ghost predicate Successive(moments: seq<Moment>, start: real) {
    moments != [] ==> start <= moments[0].at && Successive(moments[1..], moments[0].at)
  }

  /** The flow of the lazily kept level: between two moments it gains the refill in between, up to
      the capacity. */
  lemma LevelFlows(l: Limits, users: Users, user: string, t1: real, t2: real)
    requires Limiting(l) && ClockOk(l, users, t1) && t1 <= t2
    ensures Level(l, users, user, t2) == Min(l.burst, Level(l, users, user, t1) + Refill(l.rate, t2 - t1))
  {
    hide Refill;
    RefillAdds(t1, t1, t2, l.rate);
    if user in users {
      var b := users[user];
      RefillAdds(b.lastFill, t1, t2, l.rate);
      RefillInTwoSteps(l.burst, b.tokens, Refill(l.rate, t1 - b.lastFill), Refill(l.rate, t2 - t1));
    }
  }

  lemma ClockStays(l: Limits, users: Users, t1: real, t2: real)
    requires ClockOk(l, users, t1) && t1 <= t2
    ensures ClockOk(l, users, t2)
  {
  }

  // An attempt leaves the two levels equal.
  lemma AttemptAgrees(l: Limits, users: Users, user: string, b: Ideal, t: real)
    requires Limiting(l) && ClockOk(l, users, b.at) && b.at <= t && Level(l, users, user, b.at) == b.level
    ensures var (users', ok) := AfterAllow(l, users, Call(user, t));
      var level := ToppedUp(l, b, t).level;
      && (ok <==> level >= 1.0)
      && ClockOk(l, users', t) && Level(l, users', user, t) == level - (if ok then 1.0 else 0.0)
  {
    hide Refill;
    LevelFlows(l, users, user, b.at, t);
    ClockStays(l, users, b.at, t);
    CallTakesOne(l, users, Call(user, t), t);
    LevelNotNegative(l, users, user, t);
    RefillAdds(t, t, t, l.rate);
  }

  lemma {:induction false} BucketAgrees(l: Limits, users: Users, user: string, b: Ideal, moments: seq<Moment>)
    requires Limiting(l) && ClockOk(l, users, b.at) && Level(l, users, user, b.at) == b.level && Successive(moments, b.at)
    ensures Run(l, users, Attempts(moments, user)).1 == Answers(l, b, moments)
    decreases |moments|
  {
    hide Refill;
    hide Level;
    hide ClockOk;
    hide AfterAllow;
    if moments != [] {
      var t, rest := moments[0].at, moments[1..];
      var b1 := ToppedUp(l, b, t);
      if moments[0].TopUp? {
        LevelFlows(l, users, user, b.at, t);
        ClockStays(l, users, b.at, t);
        BucketAgrees(l, users, user, b1, rest);
        assert Attempts(moments, user) == Attempts(rest, user);
      } else {
        AttemptAgrees(l, users, user, b, t);
        var (users', ok) := AfterAllow(l, users, Call(user, t));
        BucketAgrees(l, users', user, if ok then b1.(level := b1.level - 1.0) else b1, rest);
        assert Attempts(moments, user) == [Call(user, t)] + Attempts(rest, user);
        assert Attempts(moments, user)[1..] == Attempts(rest, user);
      }
    }
  }

  /** A fresh limiter answers a user, among whatever other calls, exactly as a bucket that is full
      at the start and is topped up at any moments and as often as one likes between the user's calls. */
  lemma LimiterIsIdealBucket(l: Limits, calls: seq<Call>, user: string, start: real, moments: seq<Moment>)
    requires Limiting(l) && Successive(moments, start) && Attempts(moments, user) == CallsOf(calls, user)
    ensures |Run(l, map[], calls).1| == |calls|
    ensures AnswersTo(calls, Run(l, map[], calls).1, user) == Answers(l, Ideal(l.burst, start), moments)
  {
    var none: Users := map[];
    UsersAreIndependent(l, none, none, calls, user);
    BucketAgrees(l, none, user, Ideal(l.burst, start), moments);
  }

  /** A user who keeps at least 1 / rate between calls is never refused. */
  lemma {:induction false} SteadyUserIsServed(l: Limits, users: Users, calls: seq<Call>, user: string)
    requires Limiting(l) && calls != [] && ClockOk(l, users, calls[0].at)
    requires forall i :: 0 <= i < |calls| ==> calls[i].user == user
    requires InOrder(calls, calls[0].at) && Spaced(l, calls)
    requires Level(l, users, user, calls[0].at) >= 1.0
    ensures forall i :: 0 <= i < |calls| ==> i < |Run(l, users, calls).1| && Run(l, users, calls).1[i]
    decreases |calls|
  {
    hide Refill;
    var c, rest := calls[0], calls[1..];
    var users' := AfterAllow(l, users, c).0;
    CallKeepsClock(l, users, c);
    BucketAfterCall(l, users, c);
    if rest != [] {
      assert TokenApart(l, calls[0], calls[0 + 1]);
      RestIsSpaced(l, calls);
      LaterClock(l, users', c.at, rest[0].at);
      TokenComesBack(l, users, c, rest[0].at);
      SteadyUserIsServed(l, users', rest, user);
    }
    RunLength(l, users, calls);
    RunSplits(l, users, calls, user);
  }

  lemma TokenComesBack(l: Limits, users: Users, c: Call, t: real)
    requires Limiting(l) && ClockOk(l, users, c.at) && c.at <= t && TokenApart(l, c, Call(c.user, t))
    requires Level(l, users, c.user, c.at) >= 1.0
    ensures Level(l, AfterAllow(l, users, c).0, c.user, t) >= 1.0
  {
    hide Refill;
    CallTakesOne(l, users, c, t);
  }

  lemma RestIsSpaced(l: Limits, calls: seq<Call>)
    requires |calls| > 1 && InOrder(calls, calls[0].at) && Spaced(l, calls)
    ensures InOrder(calls[1..], calls[1].at) && Spaced(l, calls[1..])
  {
    hide Refill;
    var rest := calls[1..];
    forall i | 0 <= i < |rest| ensures rest[0].at <= rest[i].at {
      assert rest[i] == calls[i + 1];
    }
    forall i | 0 <= i < |rest| - 1 ensures TokenApart(l, rest[i], rest[i + 1]) {
      assert rest[i] == calls[i + 1] && rest[i + 1] == calls[i + 1 + 1];
    }
  }

  // ---------- The limiter ----------

  class Limiter {
    const limits: Limits
    var users: Users

    /** The burst defaults to the rate, and to 1; a limiter with a positive rate has a burst of
        at least 1. */
    constructor (requestsPerMinute: int, burstSize: int)
      ensures users == map[]
      ensures limits.rate == requestsPerMinute as real / 60.0
      ensures limits.burst == (if burstSize > 0 then burstSize else if requestsPerMinute > 0 then requestsPerMinute else 1) as real
      ensures requestsPerMinute > 0 ==> Limiting(limits)
      ensures requestsPerMinute <= 0 ==> limits.rate <= 0.0
    {
      var burst := burstSize;
      if burst <= 0 {
        burst := requestsPerMinute;
      }
      if burst <= 0 {
        burst := 1;
      }
      limits := Limits(requestsPerMinute as real / 60.0, burst as real);
      users := map[];
    }

    method Allow(userID: string, now: real) returns (ok: bool)
      requires limits.rate > 0.0 ==> Limiting(limits) && ClockOk(limits, users, now)
      modifies this
      ensures (users, ok) == AfterAllow(limits, old(users), Call(userID, now))
      ensures limits.rate > 0.0 ==>
        ClockOk(limits, users, now) && (ok <==> Level(limits, old(users), userID, now) >= 1.0)
      ensures limits.rate <= 0.0 ==> ok && users == old(users)
    {
      hide Refill;
      if limits.rate <= 0.0 {
        return true;
      }
      CallTakesOne(limits, users, Call(userID, now), now);
      BucketAfterCall(limits, users, Call(userID, now));
      var b := Bucket(limits.burst, now);
      if userID in users {
        b := users[userID];
      }
      var refill := Refill(limits.rate, now - b.lastFill);
      ghost var refilled := Min(limits.burst, b.tokens + refill);
      b := b.(tokens := b.tokens + refill);
      if b.tokens > limits.burst {
        b := b.(tokens := limits.burst);
      }
      b := b.(lastFill := now);
      assert refilled == Level(limits, users, userID, now);
      if b.tokens < 1.0 {
        users := users[userID := b];
        return false;
      }
      users := users[userID := b.(tokens := b.tokens - 1.0)];
      return true;
    }
  }
}
