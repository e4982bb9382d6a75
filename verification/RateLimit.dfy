// The token-bucket limiter: one shard of it. Times are in seconds, tokens and times are reals.
module RateLimit {
  datatype Limit = Limit(perMinute: real, burst: real)
  datatype Bucket = Bucket(tokens: real, last: real)

  const MAX_PER_SHARD: nat := 8192
  const EVICT_BATCH: nat := 256

  function PerSecond(lim: Limit): real {
    lim.perMinute / 60.0
  }

  function Earned(elapsed: real, lim: Limit): real {
    elapsed * PerSecond(lim)
  }

  // The bucket at `now`, before the request is weighed.
  function Refilled(b: Bucket, lim: Limit, now: real): Bucket {
    var tokens := b.tokens + Earned(now - b.last, lim);
    Bucket(if tokens > lim.burst then lim.burst else tokens, now)
  }

  predicate Admits(b: Bucket, lim: Limit, now: real) {
    Refilled(b, lim, now).tokens >= 1.0
  }

  function Charged(b: Bucket, lim: Limit, now: real): Bucket {
    var r := Refilled(b, lim, now);
    if r.tokens >= 1.0 then r.(tokens := r.tokens - 1.0) else r
  }

  // How long until a token appears.
  function Needed(b: Bucket, lim: Limit, now: real): real
    requires lim.perMinute > 0.0
  {
    if Admits(b, lim, now) then 0.0 else (1.0 - Refilled(b, lim, now).tokens) / PerSecond(lim)
  }

  // Durations are whole nanoseconds.
  function Truncated(seconds: real): real {
    (seconds * 1000000000.0).Floor as real / 1000000000.0
  }

  function RetryAfter(b: Bucket, lim: Limit, now: real): real
    requires lim.perMinute > 0.0
  {
    Truncated(Needed(b, lim, now))
  }

  // ---------------------------------------------------------------- how much is let through

  // The bucket after requests at these times, in the order they took the lock.
  function After(b: Bucket, lim: Limit, times: seq<real>): Bucket {
    if times == [] then b else Charged(After(b, lim, times[..|times| - 1]), lim, times[|times| - 1])
  }

  function Admitted(b: Bucket, lim: Limit, times: seq<real>): nat {
    if times == [] then 0
    else
      var n := |times| - 1;
      Admitted(b, lim, times[..n]) + (if Admits(After(b, lim, times[..n]), lim, times[n]) then 1 else 0)
  }

  lemma Earnings(a: real, b: real, c: real, lim: Limit)
    ensures Earned(c - b, lim) + Earned(b - a, lim) == Earned(c - a, lim) && Earned(0.0, lim) == 0.0
  {
  }

  lemma MoreTime(a: real, b: real, lim: Limit)
    requires a <= b && lim.perMinute > 0.0
    ensures Earned(a, lim) <= Earned(b, lim) && Earned(0.0, lim) == 0.0
  {
  }

  lemma ChargedAtMost(b: Bucket, lim: Limit, now: real)
    ensures var left := Charged(b, lim, now).tokens + (if Admits(b, lim, now) then 1.0 else 0.0);
            left <= lim.burst && left <= b.tokens + Earned(now - b.last, lim)
    ensures Charged(b, lim, now).last == now
  {
    hide Earned;
  }

  lemma {:induction false} Spending(b: Bucket, lim: Limit, times: seq<real>)
    requires lim.perMinute > 0.0 && times != []
    ensures var n := |times| - 1;
            After(b, lim, times).last == times[n]
            && After(b, lim, times).tokens + Admitted(b, lim, times) as real <= lim.burst + Earned(times[n] - times[0], lim)
    decreases |times|
  {
    var n := |times| - 1;
    if n == 0 {
      hide Earned, Charged, Admits;
      assert times[..0] == [];
      ChargedAtMost(b, lim, times[0]);
      Earnings(times[0], times[0], times[0], lim);
    } else {
      hide Earned, Charged, Admits;
      Spending(b, lim, times[..n]);
      ChargedAtMost(After(b, lim, times[..n]), lim, times[n]);
      Earnings(times[0], times[n - 1], times[n], lim);
    }
  }

  // Whatever the bucket held before: of requests in a row, ending in one let through, at most
  // burst plus rate times elapsed are let through -- in the order they took the lock, even if
  // their clock readings are not in order.
  lemma NoMoreThanBurstAndRate(b: Bucket, lim: Limit, times: seq<real>)
    requires lim.perMinute > 0.0 && times != []
    requires Admits(After(b, lim, times[..|times| - 1]), lim, times[|times| - 1])
    ensures Admitted(b, lim, times) as real <= lim.burst + Earned(times[|times| - 1] - times[0], lim)
  {
    Spending(b, lim, times);
  }

  predicate InOrder(times: seq<real>) {
    forall i, j :: 0 <= i <= j < |times| ==> times[i] <= times[j]
  }

  // In order, the bound holds of any window and any last request.
  lemma {:induction false} AnyWindow(b: Bucket, lim: Limit, times: seq<real>, from: real, to: real)
    requires lim.perMinute > 0.0 && lim.burst >= 0.0 && InOrder(times) && forall i :: 0 <= i < |times| ==> from <= times[i] <= to
    requires from <= to
    ensures Admitted(b, lim, times) as real <= lim.burst + Earned(to - from, lim)
    decreases |times|
  {
    hide Earned, Admits, After;
    MoreTime(0.0, to - from, lim);
    if times != [] {
      var n := |times| - 1;
      if Admits(After(b, lim, times[..n]), lim, times[n]) {
        NoMoreThanBurstAndRate(b, lim, times);
        MoreTime(times[n] - times[0], to - from, lim);
      } else {
        AnyWindow(b, lim, times[..n], from, to);
      }
    }
  }

  // ---------------------------------------------------------------- the tokens' range

  // A reading not before the bucket's last keeps the tokens between zero and the burst.
  lemma TokensStayInRange(b: Bucket, lim: Limit, now: real)
    requires lim.perMinute > 0.0 && lim.burst >= 0.0 && 0.0 <= b.tokens <= lim.burst && b.last <= now
    ensures 0.0 <= Charged(b, lim, now).tokens <= lim.burst
  {
    MoreTime(0.0, now - b.last, lim);
  }

  // The clock is read before the lock is taken, so a request may carry a reading from before the
  // bucket's last; the tokens then stay out of debt exactly when that reading's arrears do not
  // exceed what is in the bucket.
  lemma RangeIff(b: Bucket, lim: Limit, now: real)
    requires lim.perMinute > 0.0 && lim.burst >= 0.0 && 0.0 <= b.tokens <= lim.burst
    ensures 0.0 <= Charged(b, lim, now).tokens <= lim.burst <==> Earned(b.last - now, lim) <= b.tokens
  {
    Earnings(b.last, now, b.last, lim);
    hide Earned;
  }

  lemma LateReadingGoesIntoDebt()
    ensures var b, lim := Bucket(0.5, 10.0), Limit(60.0, 5.0); Charged(b, lim, 9.0).tokens == -0.5
  {
  }

  // A refused caller who waits until a token appears is let through, if nobody else took one and the
  // bucket can hold one; a bucket that cannot never lets anybody through.
  lemma WaitingIsEnough(b: Bucket, lim: Limit, now: real, wait: real)
    requires lim.perMinute > 0.0 && !Admits(b, lim, now) && wait >= Needed(b, lim, now)
    ensures Admits(Charged(b, lim, now), lim, now + wait) <==> lim.burst >= 1.0
  {
    var r := Refilled(b, lim, now);
    MoreTime((1.0 - r.tokens) / PerSecond(lim), wait, lim);
    EarnedBack(r, lim);
  }

  lemma EarnedBack(r: Bucket, lim: Limit)
    requires lim.perMinute > 0.0
    ensures Earned((1.0 - r.tokens) / PerSecond(lim), lim) == 1.0 - r.tokens
  {
  }

  lemma LessTime(a: real, b: real, lim: Limit)
    requires a < b && lim.perMinute > 0.0
    ensures Earned(a, lim) < Earned(b, lim)
  {
  }

  lemma TruncatedIsLess(seconds: real)
    ensures Truncated(seconds) <= seconds
  {
  }

  // What it is told is cut down to whole nanoseconds: waiting exactly that long is enough only if
  // nothing was cut off.
  lemma ToldIsEnoughIff(b: Bucket, lim: Limit, now: real)
    requires lim.perMinute > 0.0 && !Admits(b, lim, now)
    ensures Admits(Charged(b, lim, now), lim, now + RetryAfter(b, lim, now)) <==>
            lim.burst >= 1.0 && RetryAfter(b, lim, now) == Needed(b, lim, now)
  {
    hide Truncated;
    var needed, told := Needed(b, lim, now), RetryAfter(b, lim, now);
    TruncatedIsLess(needed);
    if told == needed {
      WaitingIsEnough(b, lim, now, told);
    } else {
      LessTime(told, needed, lim);
      EarnedBack(Refilled(b, lim, now), lim);
    }
  }

  // Thirty a minute and a third of a token short: two thirds of a second are needed, and what is told
  // falls short of it.
  lemma ToldFallsShort()
    ensures var b, lim := Bucket(2.0 / 3.0, 0.0), Limit(30.0, 1.0);
            !Admits(b, lim, 0.0) && !Admits(Charged(b, lim, 0.0), lim, RetryAfter(b, lim, 0.0))
  {
    hide Truncated, Charged;
    var b, lim := Bucket(2.0 / 3.0, 0.0), Limit(30.0, 1.0);
    TwoThirdsAreCut(2.0 / 3.0);
    assert Refilled(b, lim, 0.0) == b;
    hide Refilled;
    assert Needed(b, lim, 0.0) == 2.0 / 3.0;
    hide Needed, Earned, PerSecond;
    ToldIsEnoughIff(b, lim, 0.0);
  }

  lemma TwoThirdsAreCut(x: real)
    requires 3.0 * x == 2.0
    ensures Truncated(x) != x
  {
    var n := (x * 1000000000.0).Floor;
    assert 3 * n != 2000000000;
  }

  // ---------------------------------------------------------------- a new key

  function AtOnce(now: real, n: nat): (times: seq<real>)
    ensures |times| == n
  {
    seq(n, _ => now)
  }

  function Fewer(n: nat, burst: real): nat
    requires burst >= 0.0
  {
    if n as real <= burst then n else burst.Floor
  }

  // A full bucket asked n times in one instant lets through whole tokens until fewer than one is left.
  lemma {:induction false} FullBucket(lim: Limit, now: real, n: nat)
    requires lim.burst >= 0.0
    ensures var b := Bucket(lim.burst, now);
            && Admitted(b, lim, AtOnce(now, n)) == Fewer(n, lim.burst)
            && After(b, lim, AtOnce(now, n)) == Bucket(lim.burst - Fewer(n, lim.burst) as real, now)
    decreases n
  {
    if n > 0 {
      var b, times := Bucket(lim.burst, now), AtOnce(now, n);
      FullBucket(lim, now, n - 1);
      assert times[..n - 1] == AtOnce(now, n - 1);
      var left := After(b, lim, times[..n - 1]);
      hide Earned;
      NoTime(lim);
      assert Refilled(left, lim, now) == left;
    }
  }

  lemma NoTime(lim: Limit)
    ensures Earned(0.0, lim) == 0.0
  {
  }

  // ---------------------------------------------------------------- many keys

  // The key's bucket, a full one when it is new.
  function BucketOf(m: map<string, Bucket>, key: string, lim: Limit, now: real): Bucket {
    if key in m then m[key] else Bucket(lim.burst, now)
  }

  // One call's effect when nothing is evicted; a limit of zero a minute is no limit.
  function Took(m: map<string, Bucket>, key: string, lim: Limit, now: real): map<string, Bucket> {
    if lim.perMinute <= 0.0 then m else m[key := Charged(BucketOf(m, key, lim, now), lim, now)]
  }

  type Call = (string, real)

  // Calls in the order they took the lock, each under its key's limit.
  function Served(m: map<string, Bucket>, limits: string -> Limit, calls: seq<Call>): map<string, Bucket> {
    if calls == [] then m
    else var n := |calls| - 1; Took(Served(m, limits, calls[..n]), calls[n].0, limits(calls[n].0), calls[n].1)
  }

  // How many of one key's calls were let through.
  function LetThrough(m: map<string, Bucket>, limits: string -> Limit, calls: seq<Call>, key: string): nat {
    if calls == [] then 0
    else
      var n, lim := |calls| - 1, limits(key);
      LetThrough(m, limits, calls[..n], key)
      + (if calls[n].0 == key && (lim.perMinute <= 0.0 || Admits(BucketOf(Served(m, limits, calls[..n]), key, lim, calls[n].1), lim, calls[n].1))
         then 1 else 0)
  }

  // One key's clock readings.
  function Readings(calls: seq<Call>, key: string): (times: seq<real>)
    ensures forall t :: t in times ==> (key, t) in calls
  {
    if calls == [] then []
    else var n := |calls| - 1; Readings(calls[..n], key) + (if calls[n].0 == key then [calls[n].1] else [])
  }

  // The bucket a key starts from.
  function Start(m: map<string, Bucket>, limits: string -> Limit, calls: seq<Call>, key: string): Bucket {
    var times := Readings(calls, key);
    BucketOf(m, key, limits(key), if times == [] then 0.0 else times[0])
  }

  // Among all the others a key's calls are weighed as if they were alone.
  lemma {:induction false} KeysAreApart(m: map<string, Bucket>, limits: string -> Limit, calls: seq<Call>, key: string)
    requires limits(key).perMinute > 0.0
    ensures var m', times, b := Served(m, limits, calls), Readings(calls, key), Start(m, limits, calls, key);
            && (key in m' <==> key in m || times != [])
            && (key in m' ==> m'[key] == After(b, limits(key), times))
            && LetThrough(m, limits, calls, key) == Admitted(b, limits(key), times)
    decreases |calls|
  {
    hide Charged, Admits;
    if calls == [] {
    } else {
      var n := |calls| - 1;
      KeysAreApart(m, limits, calls[..n], key);
      if calls[n].0 == key {
        Weighed(m, limits, calls);
        hide After, Admitted, BucketOf, Start;
        var before := Readings(calls[..n], key);
        assert Readings(calls, key) == before + [calls[n].1];
        OneMore(Start(m, limits, calls, key), limits(key), before, calls[n].1);
      } else {
        assert Readings(calls, key) == Readings(calls[..n], key);
      }
    }
  }

  lemma OneMore(b: Bucket, lim: Limit, times: seq<real>, now: real)
    ensures After(b, lim, times + [now]) == Charged(After(b, lim, times), lim, now)
    ensures Admitted(b, lim, times + [now]) == Admitted(b, lim, times) + (if Admits(After(b, lim, times), lim, now) then 1 else 0)
  {
    assert (times + [now])[..|times|] == times;
  }

  // The last call's bucket is what its key's earlier calls left, whatever came between.
  lemma Weighed(m: map<string, Bucket>, limits: string -> Limit, calls: seq<Call>)
    requires calls != []
    requires var n := |calls| - 1;
             var key := calls[n].0;
             var m', times, b := Served(m, limits, calls[..n]), Readings(calls[..n], key), Start(m, limits, calls[..n], key);
             (key in m' <==> key in m || times != []) && (key in m' ==> m'[key] == After(b, limits(key), times))
             && LetThrough(m, limits, calls[..n], key) == Admitted(b, limits(key), times)
    ensures var n := |calls| - 1;
            var (key, now) := calls[n];
            var before, b := Readings(calls[..n], key), Start(m, limits, calls, key);
            && BucketOf(Served(m, limits, calls[..n]), key, limits(key), now) == After(b, limits(key), before)
            && LetThrough(m, limits, calls[..n], key) == Admitted(b, limits(key), before)
  {
    hide Charged, Admits, Served, LetThrough;
    var n := |calls| - 1;
    var key := calls[n].0;
    var before, times := Readings(calls[..n], key), Readings(calls, key);
    assert times == before + [calls[n].1];
    if before != [] {
      assert times[0] == before[0];
    }
  }

  // Over every run of calls on any number of keys: of calls of one key whose readings are in order
  // and within a window, no more than the burst and the window's earnings are let through.
  lemma EveryRunKeepsTheBound(m: map<string, Bucket>, limits: string -> Limit, calls: seq<Call>, key: string, from: real, to: real)
    requires limits(key).perMinute > 0.0 && limits(key).burst >= 0.0 && from <= to
    requires InOrder(Readings(calls, key)) && forall t :: t in Readings(calls, key) ==> from <= t <= to
    ensures LetThrough(m, limits, calls, key) as real <= limits(key).burst + Earned(to - from, limits(key))
  {
    hide Earned, Admits, Charged, LetThrough, Admitted, After;
    KeysAreApart(m, limits, calls, key);
    var times := Readings(calls, key);
    assert forall i :: 0 <= i < |times| ==> times[i] in times;
    AnyWindow(Start(m, limits, calls, key), limits(key), Readings(calls, key), from, to);
  }

  lemma {:induction false} SameReadings(key: string, now: real, calls: seq<Call>)
    requires forall i :: 0 <= i < |calls| ==> calls[i] == (key, now)
    ensures Readings(calls, key) == AtOnce(now, |calls|)
    decreases |calls|
  {
    if calls != [] {
      var n := |calls| - 1;
      SameReadings(key, now, calls[..n]);
      assert AtOnce(now, n + 1) == AtOnce(now, n) + [now];
    }
  }

  // A key never seen starts with its whole burst: of calls in one instant exactly the burst's whole
  // tokens are let through, and all of them while there are no more.
  lemma NewKeyHasItsBurst(m: map<string, Bucket>, limits: string -> Limit, calls: seq<Call>, key: string, now: real)
    requires key !in m && limits(key).perMinute > 0.0 && limits(key).burst >= 0.0
    requires forall i :: 0 <= i < |calls| ==> calls[i] == (key, now)
    ensures LetThrough(m, limits, calls, key) ==
            if |calls| as real <= limits(key).burst then |calls| else limits(key).burst.Floor
  {
    hide LetThrough, Admitted, After, Served;
    KeysAreApart(m, limits, calls, key);
    SameReadings(key, now, calls);
    FullBucket(limits(key), now, |calls|);
    if calls == [] {
      NothingAdmitted(Start(m, limits, calls, key), limits(key));
    } else {
      assert Start(m, limits, calls, key) == Bucket(limits(key).burst, now);
    }
  }

  lemma NothingAdmitted(b: Bucket, lim: Limit)
    ensures Admitted(b, lim, []) == 0
  {
  }

  ghost predicate InRange(m: map<string, Bucket>, limits: string -> Limit) {
    forall key :: key in m ==> 0.0 <= m[key].tokens <= limits(key).burst
  }

  // No key's clock goes back.
  ghost predicate AllInOrder(calls: seq<Call>) {
    forall i, j :: 0 <= i < j < |calls| && calls[i].0 == calls[j].0 ==> calls[i].1 <= calls[j].1
  }

  lemma {:induction false} LastReading(limits: string -> Limit, calls: seq<Call>, key: string)
    ensures var m := Served(map[], limits, calls);
            key in m ==> limits(key).perMinute > 0.0 && exists i :: 0 <= i < |calls| && calls[i] == (key, m[key].last)
    decreases |calls|
  {
    if calls != [] {
      var n := |calls| - 1;
      LastReading(limits, calls[..n], key);
      assert forall i :: 0 <= i < n ==> calls[..n][i] == calls[i];
      var m := Served(map[], limits, calls[..n]);
      if key in m {
        var i :| 0 <= i < n && calls[..n][i] == (key, m[key].last);
        assert calls[i] == (key, m[key].last);
      }
    }
  }

  // If no key's readings go back, every bucket's tokens are between zero and its burst throughout.
  lemma {:induction false} EveryRunStaysInRange(limits: string -> Limit, calls: seq<Call>)
    requires (forall key :: limits(key).burst >= 0.0) && AllInOrder(calls)
    ensures InRange(Served(map[], limits, calls), limits)
    decreases |calls|
  {
    if calls != [] {
      var n := |calls| - 1;
      EveryRunStaysInRange(limits, calls[..n]);
      var m := Served(map[], limits, calls[..n]);
      var (key, now) := calls[n];
      var lim := limits(key);
      if lim.perMinute > 0.0 {
        LastReading(limits, calls[..n], key);
        if key in m {
          var i :| 0 <= i < n && calls[..n][i] == (key, m[key].last);
          assert calls[i].0 == calls[n].0;
        }
        TokensStayInRange(BucketOf(m, key, lim, now), lim, now);
      }
    }
  }

  // ---------------------------------------------------------------- one shard

  // The victims are the stalest: none is newer than an entry that stays.
  ghost predicate Stalest(m: map<string, Bucket>, victims: set<string>) {
    && victims <= m.Keys
    && forall v, s :: v in victims && s in m && s !in victims ==> m[v].last <= m[s].last
  }

  // A batch of the stalest entries is gone, all of them when there are fewer.
  ghost predicate Evicted(m: map<string, Bucket>, m': map<string, Bucket>) {
    exists victims ::
      && Stalest(m, victims) && |victims| == (if |m| < EVICT_BATCH then |m| else EVICT_BATCH)
      && m' == m - victims
  }

  class Shard {
    var m: map<string, Bucket>

    constructor ()
      ensures m == map[]
    {
      m := map[];
    }

    // Where the newest of the victims stands.
    static method WorstOf(victims: seq<(string, real)>) returns (newest: nat)
      requires victims != []
      ensures newest < |victims| && forall i :: 0 <= i < |victims| ==> victims[i].1 <= victims[newest].1
    {
      newest := 0;
      for i := 1 to |victims|
        invariant newest < |victims| && forall k :: 0 <= k < i ==> victims[k].1 <= victims[newest].1
      {
        if victims[i].1 > victims[newest].1 {
          newest := i;
        }
      }
    }

    method EvictStalest()
      modifies this
      ensures Evicted(old(m), m)
    {
      hide Scanned, Stalest, Evicted, Named;
      var victims: seq<(string, real)> := [];
      var todo := m.Keys;
      assert m.Keys - todo == {};
      NothingScanned(m);
      while todo != {}
        invariant m == old(m) && todo <= m.Keys && Scanned(m, m.Keys - todo, victims)
        decreases |todo|
      {
        var k :| k in todo;
        var b := m[k];
        ghost var seen := m.Keys - todo;
        assert m.Keys - (todo - {k}) == seen + {k};
        if |victims| < EVICT_BATCH {
          ScanKeeps(m, seen, victims, k);
          victims := victims + [(k, b.last)];
        } else {
          ScanIsFull(m, seen, victims);
          var w := WorstOf(victims);
          ScanWeighs(m, seen, victims, k, w);
          if b.last < victims[w].1 {
            victims := victims[w := (k, b.last)];
          }
        }
        todo := todo - {k};
      }
      assert m.Keys - todo == m.Keys;
      ScanIsDone(m, victims);
      EvictedNow(m, Named(victims));
      m := m - Named(victims);
    }

    method Allow(key: string, lim: Limit, now: real) returns (ok: bool, retryAfter: real)
      requires |m| <= MAX_PER_SHARD
      modifies this
      ensures |m| <= 8192
      ensures lim.perMinute <= 0.0 ==> ok && retryAfter == 0.0 && m == old(m)
      ensures lim.perMinute > 0.0 ==>
                var b := BucketOf(old(m), key, lim, now);
                && ok == Admits(b, lim, now) && retryAfter == RetryAfter(b, lim, now)
                && (if key in old(m) || |old(m)| < MAX_PER_SHARD then m == Took(old(m), key, lim, now)
                    else exists left :: Evicted(old(m), left) && m == Took(left, key, lim, now))
    {
      if lim.perMinute <= 0.0 {
        return true, 0.0;
      }
      var b := Bucket(lim.burst, now);
      if key in m {
        b := m[key];
      } else if |m| >= MAX_PER_SHARD {
        EvictStalest();
        EvictedIsSmaller(old(m), m);
      }
      var perSec := PerSecond(lim);
      var tokens := b.tokens + (now - b.last) * perSec;
      if tokens > lim.burst {
        tokens := lim.burst;
      }
      assert Bucket(tokens, now) == Refilled(b, lim, now);
      hide Refilled, Evicted, Earned, Truncated;
      if tokens >= 1.0 {
        m := m[key := Bucket(tokens - 1.0, now)];
        return true, 0.0;
      }
      m := m[key := Bucket(tokens, now)];
      var need := (1.0 - tokens) / perSec;
      return false, Truncated(need);
    }
  }

  lemma EvictedNow(m: map<string, Bucket>, victims: set<string>)
    requires Stalest(m, victims) && |victims| == if |m| < EVICT_BATCH then |m| else EVICT_BATCH
    ensures Evicted(m, m - victims)
  {
  }

  lemma EvictedIsSmaller(m: map<string, Bucket>, m': map<string, Bucket>)
    requires Evicted(m, m')
    ensures |m'| == (if |m| < 256 then 0 else |m| - 256) && forall k :: k in m' ==> k in m && m'[k] == m[k]
  {
    var victims :| Stalest(m, victims) && |victims| == (if |m| < EVICT_BATCH then |m| else EVICT_BATCH) && m' == m - victims;
    assert m'.Keys == m.Keys - victims;
    assert |m'| == |m'.Keys| && |m| == |m.Keys|;
  }

  function Named(victims: seq<(string, real)>): set<string> {
    set i | 0 <= i < |victims| :: victims[i].0
  }

  // The victims so far are the stalest of the entries seen so far, a batch of them at most.
  ghost predicate Scanned(m: map<string, Bucket>, seen: set<string>, victims: seq<(string, real)>) {
    && seen <= m.Keys
    && (forall i :: 0 <= i < |victims| ==> victims[i].0 in seen && victims[i].1 == m[victims[i].0].last)
    && (forall i, j :: 0 <= i < j < |victims| ==> victims[i].0 != victims[j].0)
    && |victims| == (if |seen| < EVICT_BATCH then |seen| else EVICT_BATCH)
    && (forall i, s :: 0 <= i < |victims| && s in seen && s !in Named(victims) ==> victims[i].1 <= m[s].last)
  }

  lemma {:induction false} NamedSize(victims: seq<(string, real)>)
    requires forall i, j :: 0 <= i < j < |victims| ==> victims[i].0 != victims[j].0
    ensures |Named(victims)| == |victims|
    decreases |victims|
  {
    if victims == [] {
      assert Named(victims) == {};
    } else {
      var n := |victims| - 1;
      NamedSize(victims[..n]);
      assert Named(victims) == Named(victims[..n]) + {victims[n].0};
    }
  }

  lemma NothingScanned(m: map<string, Bucket>)
    ensures Scanned(m, {}, [])
  {
  }

  lemma ScanIsFull(m: map<string, Bucket>, seen: set<string>, victims: seq<(string, real)>)
    requires Scanned(m, seen, victims) && |victims| >= EVICT_BATCH
    ensures |victims| == EVICT_BATCH
  {
  }

  lemma NamedMore(victims: seq<(string, real)>, v: (string, real))
    ensures Named(victims + [v]) == Named(victims) + {v.0}
  {
    var victims' := victims + [v];
    forall s | s in Named(victims) + {v.0} ensures s in Named(victims') {
      if s == v.0 {
        assert victims'[|victims|].0 == s;
      } else {
        var i :| 0 <= i < |victims| && victims[i].0 == s;
        assert victims'[i].0 == s;
      }
    }
  }

  lemma ScanKeeps(m: map<string, Bucket>, seen: set<string>, victims: seq<(string, real)>, k: string)
    requires Scanned(m, seen, victims) && k in m && k !in seen && |victims| < EVICT_BATCH
    ensures Scanned(m, seen + {k}, victims + [(k, m[k].last)])
  {
    NamedSize(victims);
    assert Named(victims) <= seen;
    AllSeen(Named(victims), seen);
    NamedMore(victims, (k, m[k].last));
    hide Named;
  }

  lemma AllSeen(a: set<string>, b: set<string>)
    requires a <= b && |a| == |b|
    ensures a == b
  {
    assert |b - a| == 0;
  }

  lemma ScanWeighs(m: map<string, Bucket>, seen: set<string>, victims: seq<(string, real)>, k: string, w: nat)
    requires Scanned(m, seen, victims) && k in m && k !in seen && |victims| == EVICT_BATCH && w < |victims|
    requires forall i :: 0 <= i < |victims| ==> victims[i].1 <= victims[w].1
    ensures Scanned(m, seen + {k}, if m[k].last < victims[w].1 then victims[w := (k, m[k].last)] else victims)
  {
    if m[k].last < victims[w].1 {
      var victims' := victims[w := (k, m[k].last)];
      forall i, s | 0 <= i < |victims'| && s in seen + {k} && s !in Named(victims') ensures victims'[i].1 <= m[s].last {
        assert victims'[w].0 in Named(victims');
        if s in Named(victims) {
          var j :| 0 <= j < |victims| && victims[j].0 == s;
          assert victims'[j].0 == if j == w then k else s;
        }
      }
    }
  }

  lemma ScanIsDone(m: map<string, Bucket>, victims: seq<(string, real)>)
    requires Scanned(m, m.Keys, victims)
    ensures Stalest(m, Named(victims)) && |Named(victims)| == if |m| < EVICT_BATCH then |m| else EVICT_BATCH
  {
    NamedSize(victims);
    assert |m.Keys| == |m|;
  }
}
