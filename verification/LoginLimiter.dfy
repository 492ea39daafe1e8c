/**
 The login rate limiter: one bucket per IP, five failures per window of five minutes, then a
 lockout of fifteen minutes. Times are nanoseconds.
 */
module LoginLimiter {
  import opened Options

  datatype Bucket = Bucket(count: nat, windowStart: int, lockedUntil: Option<int>)

  const MINUTE: int := 60_000_000_000
  const MAX_FAILURES: nat := 5
  const WINDOW: int := 5 * MINUTE
  const LOCKOUT: int := 15 * MINUTE
  const KEEP: int := 30 * MINUTE

  type Buckets = map<string, Bucket>

  function Get(buckets: Buckets, ip: string): Option<Bucket> {
    if ip in buckets then Some(buckets[ip]) else None
  }

  // ----- One bucket ---------------------------------------------------------------------------

  predicate Locked(b: Bucket, now: int) {
    b.lockedUntil.Some? && now < b.lockedUntil.value
  }

  /** The bucket in which an attempt at `now` is judged: a new one, or the old one, reset if
      its window is over. */
  function Current(b: Option<Bucket>, now: int): Bucket {
    match b
    case None => Bucket(0, now, None)
    case Some(b) => if !Locked(b, now) && now - b.windowStart > WINDOW then Bucket(0, now, None) else b
  }

  predicate Admits(b: Option<Bucket>, now: int) {
    !Locked(Current(b, now), now) && Current(b, now).count < MAX_FAILURES
  }

  /** Refusing an attempt that is not locked out yet starts a lockout. */
  function Allowed(b: Option<Bucket>, now: int): Bucket {
    var c := Current(b, now);
    if Locked(c, now) || c.count < MAX_FAILURES then c else c.(lockedUntil := Some(now + LOCKOUT))
  }

  /** One login attempt: Allow, and Record if it was let through and failed. */
  function Attempted(b: Option<Bucket>, now: int, correct: bool): Bucket {
    var a := Allowed(b, now);
    if Admits(b, now) && !correct then a.(count := a.count + 1) else a
  }

  predicate Stale(b: Bucket, now: int) {
    match b.lockedUntil
    case None => now - b.windowStart > KEEP
    case Some(until) => now > until + KEEP
  }

  // ----- The limiter -----------------------------------------------------------------------------

  predicate LongOver(b: Bucket, now: int) {
    match b.lockedUntil
    case None => now - b.windowStart > 1_800_000_000_000
    case Some(until) => now > until + 1_800_000_000_000
  }

  class LoginRateLimiter {
    var buckets: Buckets

    constructor ()
      ensures buckets == map[]
    {
      buckets := map[];
    }

    method Allow(ip: string, now: int) returns (ok: bool, retryAfter: int)
      modifies this
      ensures ok == Admits(Get(old(buckets), ip), now)
      ensures buckets == old(buckets)[ip := Allowed(Get(old(buckets), ip), now)]
      ensures if ok then retryAfter == 0 else Locked(buckets[ip], now) && now + retryAfter == buckets[ip].lockedUntil.value
    {
      if ip !in buckets {
        buckets := buckets[ip := Bucket(0, now, None)];
        return true, 0;
      }
      var b := buckets[ip];
      if b.lockedUntil.Some? && now < b.lockedUntil.value {
        assert buckets == buckets[ip := b];
        return false, b.lockedUntil.value - now;
      }
      if now - b.windowStart > WINDOW {
        b := b.(count := 0, windowStart := now, lockedUntil := None);
      }
      if b.count >= MAX_FAILURES {
        b := b.(lockedUntil := Some(now + LOCKOUT));
        buckets := buckets[ip := b];
        return false, LOCKOUT;
      }
      buckets := buckets[ip := b];
      return true, 0;
    }

    method Record(ip: string, now: int)
      modifies this
      ensures buckets == old(buckets)[ip := match Get(old(buckets), ip)
                                            case None => Bucket(1, now, None)
                                            case Some(b) => b.(count := b.count + 1)]
    {
      if ip !in buckets {
        buckets := buckets[ip := Bucket(1, now, None)];
      } else {
        buckets := buckets[ip := buckets[ip].(count := buckets[ip].count + 1)];
      }
    }

    /** Removes exactly the buckets whose lockout, or whose window if there is none, ended half an
        hour ago. */
    method Sweep(now: int)
      modifies this
      ensures buckets == Swept(old(buckets), now)
      ensures forall ip :: ip in buckets <==> ip in old(buckets) && !LongOver(old(buckets)[ip], now)
    {
      var todo := buckets.Keys;
      while todo != {}
        invariant todo <= old(buckets).Keys
        invariant buckets.Keys <= old(buckets).Keys && todo <= buckets.Keys
        invariant forall ip :: ip in buckets ==> buckets[ip] == old(buckets)[ip]
        invariant forall ip :: ip in old(buckets) && ip !in todo ==> (ip in buckets <==> !Stale(old(buckets)[ip], now))
      {
        var ip :| ip in todo;
        var b := buckets[ip];
        var expired := b.lockedUntil.None? && now - b.windowStart > KEEP;
        var lockExpired := b.lockedUntil.Some? && now > b.lockedUntil.value + KEEP;
        if expired || lockExpired { buckets := buckets - {ip}; }
        todo := todo - {ip};
      }
    }

    /** PostLogin, as far as the limiter is concerned. */
    method Login(ip: string, now: int, correct: bool) returns (loggedIn: bool)
      modifies this
      ensures buckets == Step(old(buckets), Attempt(ip, now, correct))
      ensures loggedIn == (Admits(Get(old(buckets), ip), now) && correct)
    {
      var ok, retryAfter := Allow(ip, now);
      if !ok { return false; }
      if !correct {
        Record(ip, now);
        return false;
      }
      return true;
    }
  }

  // ----- Runs -----------------------------------------------------------------------------------------

  datatype Event = Attempt(ip: string, at: int, correct: bool) | Sweep(at: int)

  function Swept(buckets: Buckets, now: int): Buckets {
    map ip | ip in buckets && !Stale(buckets[ip], now) :: buckets[ip]
  }

  function Step(buckets: Buckets, e: Event): Buckets {
    match e
    case Attempt(ip, now, correct) => buckets[ip := Attempted(Get(buckets, ip), now, correct)]
    case Sweep(now) => Swept(buckets, now)
  }

  function Run(events: seq<Event>): Buckets {
    if events == [] then map[] else Step(Run(events[..|events| - 1]), events[|events| - 1])
  }

  predicate Monotone(events: seq<Event>) {
    forall i, j :: 0 <= i < j < |events| ==> events[i].at <= events[j].at
  }

  /** Event i is an attempt of `ip`, made while its bucket was Before(events, i, ip). */
  predicate By(events: seq<Event>, i: nat, ip: string) {
    i < |events| && events[i].Attempt? && events[i].ip == ip
  }

  function Before(events: seq<Event>, i: nat, ip: string): Option<Bucket>
    requires i <= |events|
  {
    Get(Run(events[..i]), ip)
  }

  predicate Fails(events: seq<Event>, i: nat, ip: string) {
    By(events, i, ip) && Admits(Before(events, i, ip), events[i].at) && !events[i].correct
  }

  /** The bucket of one IP changes only with its own attempts and with sweeps. */
  lemma BucketStep(events: seq<Event>, i: nat, ip: string)
    requires i < |events|
    ensures Before(events, i + 1, ip) ==
            match events[i]
            case Attempt(who, now, correct) =>
              if who == ip then Some(Attempted(Before(events, i, ip), now, correct)) else Before(events, i, ip)
            case Sweep(now) =>
              if Before(events, i, ip).Some? && Stale(Before(events, i, ip).value, now) then None else Before(events, i, ip)
  {
    assert events[..i + 1][..i] == events[..i];
  }

  /** When the failed attempts of `ip` among the first n events were made, and the start of the
      window each of them fell in. */
  function Failures(events: seq<Event>, n: nat, ip: string): seq<int>
    requires n <= |events|
  {
    if n == 0 then []
    else Failures(events, n - 1, ip) + if Fails(events, n - 1, ip) then [events[n - 1].at] else []
  }

  function Windows(events: seq<Event>, n: nat, ip: string): (w: seq<int>)
    requires n <= |events|
    ensures |w| == |Failures(events, n, ip)|
  {
    if n == 0 then []
    else
      Windows(events, n - 1, ip) +
      if Fails(events, n - 1, ip) then [Current(Before(events, n - 1, ip), events[n - 1].at).windowStart] else []
  }

  // ----- Invariant -------------------------------------------------------------------------------------

  /** Windows are more than five minutes apart, hold at most five failures, and each failure
      lies in its window. */
  ghost predicate Spread(times: seq<int>, starts: seq<int>)
    requires |times| == |starts|
  {
    && (forall i :: 0 <= i < |times| ==> starts[i] <= times[i] <= starts[i] + WINDOW)
    && (forall i, j :: 0 <= i < j < |starts| ==> starts[i] == starts[j] || starts[j] - starts[i] > WINDOW)
    && (forall i, j :: 0 <= i && i + MAX_FAILURES <= j < |starts| ==> starts[j] - starts[i] > WINDOW)
  }

  /** The bucket agrees with the history at time `now`. */
  ghost predicate Agrees(b: Option<Bucket>, starts: seq<int>, now: int) {
    match b
    case None => forall i :: 0 <= i < |starts| ==> now - starts[i] > WINDOW
    case Some(b) =>
      && b.windowStart <= now
      && b.count <= MAX_FAILURES && b.count <= |starts|
      && (forall i :: |starts| - b.count <= i < |starts| ==> starts[i] == b.windowStart)
      && (forall i :: 0 <= i < |starts| - b.count ==> b.windowStart - starts[i] > WINDOW)
      && (b.lockedUntil.Some? ==>
            b.count == MAX_FAILURES && b.windowStart + LOCKOUT <= b.lockedUntil.value <= b.windowStart + WINDOW + LOCKOUT)
  }

  lemma LaterAgrees(b: Option<Bucket>, starts: seq<int>, now: int, later: int)
    requires Agrees(b, starts, now) && now <= later
    ensures Agrees(b, starts, later)
  {
  }

  /** Judging an attempt keeps the agreement. */
  lemma CurrentAgrees(b: Option<Bucket>, starts: seq<int>, now: int)
    requires Agrees(b, starts, now)
    ensures Agrees(Some(Current(b, now)), starts, now)
    ensures Agrees(Some(Allowed(b, now)), starts, now)
    ensures Admits(b, now) ==> now - Current(b, now).windowStart <= WINDOW && Allowed(b, now) == Current(b, now)
  {
  }

  lemma FailureAgrees(b: Bucket, times: seq<int>, starts: seq<int>, now: int)
    requires |times| == |starts| && Spread(times, starts) && Agrees(Some(b), starts, now)
    requires b.count < MAX_FAILURES && now - b.windowStart <= WINDOW
    ensures Spread(times + [now], starts + [b.windowStart])
    ensures Agrees(Some(b.(count := b.count + 1)), starts + [b.windowStart], now)
  {
  }

  lemma SweepAgrees(b: Bucket, starts: seq<int>, now: int)
    requires Agrees(Some(b), starts, now) && Stale(b, now)
    ensures Agrees(None, starts, now)
  {
  }

  /** One attempt keeps bucket and history in step. */
  lemma AttemptAgrees(b: Option<Bucket>, times: seq<int>, starts: seq<int>, now: int, correct: bool)
    requires |times| == |starts| && Spread(times, starts) && Agrees(b, starts, now)
    ensures var fails := Admits(b, now) && !correct;
      var starts' := if fails then starts + [Current(b, now).windowStart] else starts;
      && Spread(if fails then times + [now] else times, starts')
      && Agrees(Some(Attempted(b, now, correct)), starts', now)
  {
    CurrentAgrees(b, starts, now);
    if Admits(b, now) && !correct { FailureAgrees(Current(b, now), times, starts, now); }
  }

  /** The invariant at the point where `n` events have happened. */
  ghost predicate InStep(events: seq<Event>, n: nat, ip: string, now: int)
    requires n <= |events|
  {
    Spread(Failures(events, n, ip), Windows(events, n, ip)) && Agrees(Before(events, n, ip), Windows(events, n, ip), now)
  }

  lemma HistoryStep(events: seq<Event>, n: nat, ip: string)
    requires n < |events|
    ensures var times, starts := Failures(events, n, ip), Windows(events, n, ip);
      var times', starts' := Failures(events, n + 1, ip), Windows(events, n + 1, ip);
      if Fails(events, n, ip)
      then times' == times + [events[n].at] && starts' == starts + [Current(Before(events, n, ip), events[n].at).windowStart]
      else times' == times && starts' == starts
  {
  }

  lemma OwnStepAgrees(events: seq<Event>, n: nat, ip: string)
    requires By(events, n, ip) && InStep(events, n, ip, events[n].at)
    ensures InStep(events, n + 1, ip, events[n].at)
  {
    BucketStep(events, n, ip);
    HistoryStep(events, n, ip);
    AttemptAgrees(Before(events, n, ip), Failures(events, n, ip), Windows(events, n, ip), events[n].at, events[n].correct);
  }

  lemma OtherStepAgrees(events: seq<Event>, n: nat, ip: string)
    requires n < |events| && !By(events, n, ip) && InStep(events, n, ip, events[n].at)
    ensures InStep(events, n + 1, ip, events[n].at)
  {
    BucketStep(events, n, ip);
    var b, e := Before(events, n, ip), events[n];
    HistoryStep(events, n, ip);
    if e.Sweep? && b.Some? && Stale(b.value, e.at) { SweepAgrees(b.value, Windows(events, n, ip), e.at); }
  }

  /** One event and the time until the next. */
  lemma StepAgrees(events: seq<Event>, n: nat, ip: string, now: int)
    requires n < |events| && InStep(events, n, ip, events[n].at) && events[n].at <= now
    ensures InStep(events, n + 1, ip, now)
  {
    if By(events, n, ip) {
      OwnStepAgrees(events, n, ip);
    } else {
      OtherStepAgrees(events, n, ip);
    }
    LaterAgrees(Before(events, n + 1, ip), Windows(events, n + 1, ip), events[n].at, now);
  }

  lemma NothingYet(events: seq<Event>, ip: string, now: int)
    ensures InStep(events, 0, ip, now)
  {
  }

  /** In every run the bucket agrees with the history. */
  lemma {:induction false} RunAgrees(events: seq<Event>, n: nat, ip: string, now: int)
    requires Monotone(events) && n <= |events| && (n > 0 ==> events[n - 1].at <= now)
    ensures InStep(events, n, ip, now)
  {
    if n == 0 {
      NothingYet(events, ip, now);
    } else {
      RunAgrees(events, n - 1, ip, events[n - 1].at);
      StepAgrees(events, n - 1, ip, now);
    }
  }

  // ----- Bounds over whole runs -----------------------------------------------------------------------

  /** Among the failures of one IP, any two that are five apart fall in different windows. */
  lemma AtMostFivePerWindow(events: seq<Event>, ip: string, i: nat, j: nat)
    requires Monotone(events) && i + 5 <= j < |Failures(events, |events|, ip)|
    ensures Windows(events, |events|, ip)[i] + 300_000_000_000 < Windows(events, |events|, ip)[j]
  {
    RunAgrees(events, |events|, ip, if events == [] then 0 else events[|events| - 1].at);
  }

  /** Any eleven failures span more than five minutes. */
  lemma ElevenTakeLonger(events: seq<Event>, ip: string, i: nat, j: nat)
    requires Monotone(events) && i + 2 * MAX_FAILURES <= j < |Failures(events, |events|, ip)|
    ensures Failures(events, |events|, ip)[j] - Failures(events, |events|, ip)[i] > WINDOW
  {
    RunAgrees(events, |events|, ip, if events == [] then 0 else events[|events| - 1].at);
    var starts := Windows(events, |events|, ip);
    assert starts[i + MAX_FAILURES] - starts[i] > WINDOW;
    assert starts[j] - starts[i + MAX_FAILURES] > WINDOW;
  }

  /** How many of the times lie in the five minutes from `from` on. */
  function Within(times: seq<int>, from: int): nat {
    if times == [] then 0
    else Within(times[..|times| - 1], from) + if Inside(times[|times| - 1], from) then 1 else 0
  }

  lemma {:induction false} WithinNone(times: seq<int>, from: int)
    requires forall i :: 0 <= i < |times| ==> !Inside(times[i], from)
    ensures Within(times, from) == 0
  {
    if times != [] { WithinNone(times[..|times| - 1], from); }
  }

  lemma {:induction false} WithinTail(times: seq<int>, from: int, k: nat)
    requires k <= |times|
    ensures Within(times, from) <= Within(times[..|times| - k], from) + k
  {
    if k == 0 {
      assert times[..|times|] == times;
    } else {
      WithinTail(times[..|times| - 1], from, k - 1);
      assert times[..|times| - 1][..|times| - k] == times[..|times| - k];
    }
  }

  /** In the five minutes from `from` on. */
  predicate Inside(time: int, from: int) {
    from <= time <= from + 300_000_000_000
  }

  /** If no two times that are n apart lie in the interval, at most n do. */
  lemma {:induction false} SparseCount(times: seq<int>, from: int, n: nat)
    requires forall i, j :: 0 <= i && i + n <= j < |times| ==> !Inside(times[i], from) || !Inside(times[j], from)
    ensures Within(times, from) <= n
  {
    if times != [] {
      var last := |times| - 1;
      if Inside(times[last], from) && n <= last {
        WithinTail(times, from, n);
        WithinNone(times[..|times| - n], from);
      } else if n <= last {
        SparseCount(times[..last], from, n);
      } else {
        WithinTail(times, from, |times|);
      }
    }
  }

  /** However attempts and sweeps follow one another, an IP has at most ten failed attempts in
      any five minutes. */
  lemma AtMostTenInFiveMinutes(events: seq<Event>, ip: string, from: int)
    requires Monotone(events)
    ensures Within(Failures(events, |events|, ip), from) <= 10
  {
    var times := Failures(events, |events|, ip);
    forall i, j | 0 <= i && i + 2 * MAX_FAILURES <= j < |times| ensures times[j] - times[i] > WINDOW {
      ElevenTakeLonger(events, ip, i, j);
    }
    SparseCount(times, from, 2 * MAX_FAILURES);
  }

  /** More than five failures in five minutes straddle two windows: the later one starts more
      than five minutes after the earlier one. */
  lemma MoreThanFiveStraddle(events: seq<Event>, ip: string, from: int) returns (i: nat, j: nat)
    requires Monotone(events) && Within(Failures(events, |events|, ip), from) > MAX_FAILURES
    ensures var times, starts := Failures(events, |events|, ip), Windows(events, |events|, ip);
      && i < j < |times| && Inside(times[i], from) && Inside(times[j], from)
      && starts[j] - starts[i] > WINDOW
  {
    var times := Failures(events, |events|, ip);
    if forall i, j :: 0 <= i && i + MAX_FAILURES <= j < |times| ==> !Inside(times[i], from) || !Inside(times[j], from) {
      SparseCount(times, from, MAX_FAILURES);
    }
    i, j :| i + MAX_FAILURES <= j < |times| && Inside(times[i], from) && Inside(times[j], from);
    AtMostFivePerWindow(events, ip, i, j);
  }

  /** A correct login that opens a window, five failures shortly before it ends, and five more
      as soon as it is over. */
  function Burst(ip: string): seq<Event> {
    seq(11, i => if i == 0 then Attempt(ip, 0, true) else Attempt(ip, BurstTime(i), false))
  }

  function BurstTime(i: int): int {
    if i == 0 then 0 else if i <= 5 then 4 * MINUTE else WINDOW + 1
  }

  function BurstBucket(n: nat): Bucket {
    if n <= 5 then Bucket(n, 0, None) else Bucket(n - 5, WINDOW + 1, None)
  }

  function BurstTimes(n: nat): seq<int> {
    if n == 0 then [] else BurstTimes(n - 1) + [BurstTime(n)]
  }

  lemma BurstStep(n: nat)
    requires 1 <= n <= 10
    ensures Admits(Some(BurstBucket(n - 1)), BurstTime(n))
    ensures Attempted(Some(BurstBucket(n - 1)), BurstTime(n), false) == BurstBucket(n)
  {
  }

  lemma {:induction false} BurstFails(ip: string, n: nat)
    requires n <= 10
    ensures Before(Burst(ip), n + 1, ip) == Some(BurstBucket(n))
    ensures Failures(Burst(ip), n + 1, ip) == BurstTimes(n)
  {
    BucketStep(Burst(ip), n, ip);
    HistoryStep(Burst(ip), n, ip);
    if n > 0 {
      BurstFails(ip, n - 1);
      BurstStep(n);
    } else {
      assert Before(Burst(ip), 0, ip) == None;
    }
  }

  lemma {:induction false} BurstWithin(n: nat)
    requires n <= 10
    ensures Within(BurstTimes(n), 4 * MINUTE) == n
  {
    if n > 0 { BurstWithin(n - 1); }
  }

  /** The bound of ten is attained. */
  lemma TenIsAttained(ip: string)
    ensures Monotone(Burst(ip)) && Within(Failures(Burst(ip), |Burst(ip)|, ip), 4 * MINUTE) == 10
  {
    BurstFails(ip, 10);
    BurstWithin(10);
  }

  // ----- Lockouts ---------------------------------------------------------------------------------------

  predicate LockedOut(events: seq<Event>, i: nat, ip: string)
    requires i < |events|
  {
    Before(events, i, ip).Some? && Locked(Before(events, i, ip).value, events[i].at)
  }

  /** Attempt i is refused although no lockout is in force: it starts one. */
  predicate StartsLockout(events: seq<Event>, i: nat, ip: string) {
    By(events, i, ip) && !LockedOut(events, i, ip) && !Admits(Before(events, i, ip), events[i].at)
  }

  /** A lockout is earned: outside a lockout, an attempt starts one exactly when the last five
      failures of the IP fell in a window that is still open. */
  lemma LockoutEarned(events: seq<Event>, i: nat, ip: string)
    requires Monotone(events) && By(events, i, ip) && !LockedOut(events, i, ip)
    ensures StartsLockout(events, i, ip) <==>
            |Failures(events, i, ip)| >= 5 &&
            events[i].at - Windows(events, i, ip)[|Failures(events, i, ip)| - 5] <= 300_000_000_000
  {
    RunAgrees(events, i, ip, events[i].at);
    CurrentAgrees(Before(events, i, ip), Windows(events, i, ip), events[i].at);
  }

  /** While no attempt of the IP comes after the end of the lockout, its bucket stays as the
      lockout left it, or is swept away half an hour after the end. */
  lemma {:induction false} LockoutStays(events: seq<Event>, i: nat, j: nat, ip: string)
    requires Monotone(events) && StartsLockout(events, i, ip) && i < j <= |events|
    requires forall k :: i < k < j && By(events, k, ip) ==> events[k].at < events[i].at + LOCKOUT
    ensures var b := Before(events, j, ip);
      || (b.Some? && b.value.count >= MAX_FAILURES && b.value.lockedUntil == Some(events[i].at + LOCKOUT)
          && b.value.windowStart <= events[i].at)
      || (b.None? && events[j - 1].at > events[i].at + LOCKOUT + KEEP)
  {
    BucketStep(events, j - 1, ip);
    if j == i + 1 {
      RunAgrees(events, i, ip, events[i].at);
      CurrentAgrees(Before(events, i, ip), Windows(events, i, ip), events[i].at);
    } else {
      LockoutStays(events, i, j - 1, ip);
      assert events[j - 2].at <= events[j - 1].at;
    }
  }

  /** A lockout refuses every attempt of its IP for fifteen minutes … */
  lemma LockoutRefuses(events: seq<Event>, i: nat, j: nat, ip: string)
    requires Monotone(events) && StartsLockout(events, i, ip) && i < j && By(events, j, ip)
    requires events[j].at < events[i].at + 900_000_000_000
    ensures !Admits(Before(events, j, ip), events[j].at)
  {
    LockoutStays(events, i, j, ip);
    assert events[j - 1].at <= events[j].at;
  }

  /** … and of the attempts up to the first one at or after its end, exactly that one is let
      through. */
  lemma LockoutExact(events: seq<Event>, i: nat, j: nat, ip: string)
    requires Monotone(events) && StartsLockout(events, i, ip) && i < j && By(events, j, ip)
    requires forall k :: i < k < j && By(events, k, ip) ==> events[k].at < events[i].at + LOCKOUT
    ensures Admits(Before(events, j, ip), events[j].at) <==> events[j].at >= events[i].at + 900_000_000_000
  {
    LockoutStays(events, i, j, ip);
    assert events[j - 1].at <= events[j].at;
  }
}
