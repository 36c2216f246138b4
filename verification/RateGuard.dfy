/** The per-user sliding-window rate guard of services/scheduling.py. */
module RateGuard {

  /** A user and an action. */
  type Key = (int, string)

  const RATE_WINDOW := 10.0
  const RATE_LIMIT := 5

  /** `_RATE_LIMITS`. */
  const RATE_LIMITS := map[
    "study_start" := 5, "query_ask" := 5, "grammar_tip" := 5,
    "srs_grade_review" := 5, "srs_grade_first" := 5, "srs_grade" := 5]

  function LimitFor(limits: map<string, int>, action: string): int {
    if action in limits then limits[action] else RATE_LIMIT
  }

  /** The limits are those configured, five where none is, and five for every action as
      the module is shipped. */
  lemma KnownLimits(limits: map<string, int>, action: string)
    ensures action in limits ==> LimitFor(limits, action) == limits[action]
    ensures action !in limits ==> LimitFor(limits, action) == 5
    ensures LimitFor(RATE_LIMITS, action) == 5
  {
  }

  /******* The unpruned reference *******/

  /** How many of `times` lie in the window that ends at `t`. */
  function InWindow(times: seq<real>, t: real): nat {
    if times == [] then 0
    else InWindow(times[..|times| - 1], t) +
         (if t - 10.0 < times[|times| - 1] <= t then 1 else 0)
  }

  predicate AllUpTo(times: seq<real>, t: real) {
    forall i :: 0 <= i < |times| ==> times[i] <= t
  }

  predicate Sorted(times: seq<real>) {
    forall i, j :: 0 <= i < j < |times| ==> times[i] <= times[j]
  }

  /** Each time was admitted with fewer than `limit` before it in its window. */
  predicate Admitted(times: seq<real>, limit: int) {
    forall n :: 0 <= n < |times| ==> InWindow(times[..n], times[n]) < limit
  }

  lemma {:induction false} WindowShrinks(times: seq<real>, t: real, u: real)
    requires t <= u && AllUpTo(times, t)
    ensures InWindow(times, u) <= InWindow(times, t)
  {
    if times != [] {
      WindowShrinks(times[..|times| - 1], t, u);
    }
  }

  lemma {:induction false} WindowEmpty(times: seq<real>, t: real)
    requires AllUpTo(times, t - RATE_WINDOW)
    ensures InWindow(times, t) == 0
  {
    if times != [] {
      WindowEmpty(times[..|times| - 1], t);
    }
  }

  lemma {:induction false} WindowFull(times: seq<real>, t: real)
    requires AllUpTo(times, t) && forall i :: 0 <= i < |times| ==> times[i] > t - RATE_WINDOW
    ensures InWindow(times, t) == |times|
  {
    if times != [] {
      WindowFull(times[..|times| - 1], t);
    }
  }

  lemma {:induction false} WindowConcat(a: seq<real>, b: seq<real>, t: real)
    ensures InWindow(a + b, t) == InWindow(a, t) + InWindow(b, t)
  {
    if b == [] {
      assert a + b == a;
    } else {
      assert (a + b)[..|a + b| - 1] == a + b[..|b| - 1];
      WindowConcat(a, b[..|b| - 1], t);
    }
  }

  /** Every window of ten seconds, wherever it ends, holds at most `limit` times. */
  lemma {:induction false} EveryWindowCapped(times: seq<real>, limit: nat, t: real)
    requires Sorted(times) && Admitted(times, limit)
    ensures InWindow(times, t) <= limit
  {
    if times != [] {
      var (before, last) := (times[..|times| - 1], times[|times| - 1]);
      assert forall n :: 0 <= n < |before| ==> before[..n] == times[..n];
      EveryWindowCapped(before, limit, t);
      if t - RATE_WINDOW < last <= t {
        WindowShrinks(before, last, t);
      }
    }
  }

  /******* The guard *******/

  /** The times under `key`, none if it has no entry. */
  function At(buckets: map<Key, seq<real>>, key: Key): seq<real> {
    if key in buckets then buckets[key] else []
  }

  /** `kept` is `all` less some times that no window from `clock` on reaches. */
  predicate PrunedFrom(kept: seq<real>, all: seq<real>, clock: real) {
    && |kept| <= |all| && kept == all[|all| - |kept|..]
    && AllUpTo(all[..|all| - |kept|], clock - RATE_WINDOW)
  }

  ghost predicate KeyOk(all: seq<real>, kept: seq<real>, limit: int, clock: real) {
    && Sorted(all) && AllUpTo(all, clock) && Admitted(all, limit)
    && PrunedFrom(kept, all, clock)
  }

  /** `_prune`: pop the front while it is out of the window. */
  method Prune(bucket: seq<real>, now: real) returns (kept: seq<real>)
    requires Sorted(bucket) && AllUpTo(bucket, now)
    ensures PrunedFrom(kept, bucket, now) && |kept| == InWindow(bucket, now)
  {
    kept := bucket;
    ghost var n := 0;
    while kept != [] && kept[0] <= now - RATE_WINDOW
      invariant n <= |bucket| && kept == bucket[n..]
      invariant forall i :: 0 <= i < n ==> bucket[i] <= now - RATE_WINDOW
    {
      kept := kept[1..];
      n := n + 1;
    }
    WindowOfSuffix(bucket, n, now);
  }

  lemma WindowOfSuffix(bucket: seq<real>, n: nat, now: real)
    requires n <= |bucket| && AllUpTo(bucket, now)
    requires forall i :: 0 <= i < n ==> bucket[i] <= now - RATE_WINDOW
    requires forall i :: n <= i < |bucket| ==> bucket[i] > now - RATE_WINDOW
    ensures InWindow(bucket, now) == |bucket| - n
  {
    assert bucket == bucket[..n] + bucket[n..];
    WindowConcat(bucket[..n], bucket[n..], now);
    WindowEmpty(bucket[..n], now);
    WindowFull(bucket[n..], now);
  }

  /** Pruning a pruned bucket again counts the window of the whole history. */
  lemma PrunedTwice(all: seq<real>, bucket: seq<real>, kept: seq<real>, clock: real, now: real)
    requires PrunedFrom(bucket, all, clock) && PrunedFrom(kept, bucket, now) && clock <= now
    ensures PrunedFrom(kept, all, now) && InWindow(all, now) == InWindow(bucket, now)
  {
    var dropped := all[..|all| - |bucket|];
    assert all == dropped + bucket;
    WindowConcat(dropped, bucket, now);
    WindowEmpty(dropped, now);
    assert all[..|all| - |kept|] == dropped + bucket[..|bucket| - |kept|];
  }

  /** Appending an admitted time keeps a key in order. */
  lemma AppendKeeps(all: seq<real>, kept: seq<real>, limit: int, now: real)
    requires KeyOk(all, kept, limit, now) && InWindow(all, now) < limit
    ensures KeyOk(all + [now], kept + [now], limit, now)
  {
    AppendPruned(all, kept, now);
    AppendAdmitted(all, limit, now);
  }

  lemma AppendPruned(all: seq<real>, kept: seq<real>, now: real)
    requires PrunedFrom(kept, all, now)
    ensures PrunedFrom(kept + [now], all + [now], now)
  {
    var n := |all| - |kept|;
    assert (all + [now])[..n] == all[..n] && (all + [now])[n..] == all[n..] + [now];
  }

  lemma AppendAdmitted(all: seq<real>, limit: int, now: real)
    requires Admitted(all, limit) && InWindow(all, now) < limit
    ensures Admitted(all + [now], limit)
  {
    var grown := all + [now];
    forall n | 0 <= n < |grown| ensures InWindow(grown[..n], grown[n]) < limit {
      assert grown[..n] == all[..n] && all[..|all|] == all;
    }
  }

  lemma LaterOk(all: seq<real>, kept: seq<real>, limit: int, clock: real, now: real)
    requires KeyOk(all, kept, limit, clock) && clock <= now
    ensures KeyOk(all, kept, limit, now)
  {
  }

  ghost predicate AllOk(
    limits: map<string, int>, history: map<Key, seq<real>>, buckets: map<Key, seq<real>>, clock: real)
  {
    forall key: Key :: KeyOk(At(history, key), At(buckets, key), LimitFor(limits, key.1), clock)
  }

  /** The buckets with the pruned bucket of `key` stored, or its entry dropped when
      empty. */
  function Settled(buckets: map<Key, seq<real>>, key: Key, kept: seq<real>): map<Key, seq<real>> {
    if kept == [] then buckets - {key} else buckets[key := kept]
  }

  lemma SettleKeeps(
    limits: map<string, int>, history: map<Key, seq<real>>, buckets: map<Key, seq<real>>, clock: real,
    key: Key, kept: seq<real>, now: real)
    requires AllOk(limits, history, buckets, clock) && clock <= now
    requires KeyOk(At(history, key), kept, LimitFor(limits, key.1), now)
    ensures AllOk(limits, history, Settled(buckets, key, kept), now) && At(Settled(buckets, key, kept), key) == kept
  {
    var settled := Settled(buckets, key, kept);
    forall other: Key ensures KeyOk(At(history, other), At(settled, other), LimitFor(limits, other.1), now) {
      if other == key {
        assert At(settled, other) == kept;
      } else {
        assert At(settled, other) == At(buckets, other);
        LaterOk(At(history, other), At(buckets, other), LimitFor(limits, other.1), clock, now);
      }
    }
  }

  lemma AppendsKeep(
    limits: map<string, int>, history: map<Key, seq<real>>, buckets: map<Key, seq<real>>, key: Key, now: real)
    requires AllOk(limits, history, buckets, now) && InWindow(At(history, key), now) < LimitFor(limits, key.1)
    ensures AllOk(limits, history[key := At(history, key) + [now]], buckets[key := At(buckets, key) + [now]], now)
  {
    var (h, b) := (history[key := At(history, key) + [now]], buckets[key := At(buckets, key) + [now]]);
    forall other: Key ensures KeyOk(At(h, other), At(b, other), LimitFor(limits, other.1), now) {
      assert KeyOk(At(history, other), At(buckets, other), LimitFor(limits, other.1), now);
      if other == key {
        AppendKeeps(At(history, key), At(buckets, key), LimitFor(limits, key.1), now);
      }
    }
  }

  class Guard {
    const limits: map<string, int>
    var buckets: map<Key, seq<real>>
    /** Every acquisition ever made, and the last reading of the clock. */
    ghost var history: map<Key, seq<real>>
    ghost var clock: real

    ghost predicate Valid()
      reads this
    {
      AllOk(limits, history, buckets, clock)
    }

    constructor (limits: map<string, int>, now: real)
      ensures Valid() && this.limits == limits && clock == now && history == map[]
    {
      this.limits := limits;
      buckets, history, clock := map[], map[], now;
    }

    /** The bucket of `key` pruned at `now`: as long as the window of the history. */
    method Pruned(key: Key, now: real) returns (kept: seq<real>)
      requires Valid() && clock <= now
      ensures |kept| == InWindow(At(history, key), now)
      ensures KeyOk(At(history, key), kept, LimitFor(limits, key.1), now)
    {
      assert KeyOk(At(history, key), At(buckets, key), LimitFor(limits, key.1), clock);
      ghost var all := At(history, key);
      var bucket := At(buckets, key);
      kept := Prune(bucket, now);
      PrunedTwice(all, bucket, kept, clock, now);
    }

    /** `is_rate_limited`: true exactly if the full history holds the limit in the
        window, and at least one acquisition. Records nothing. */
    method IsRateLimited(key: Key, now: real) returns (limited: bool)
      requires Valid() && clock <= now
      modifies this
      ensures Valid() && clock == now && history == old(history)
      ensures limited <==>
        InWindow(At(history, key), now) > 0 && InWindow(At(history, key), now) >= LimitFor(limits, key.1)
    {
      var kept := Pruned(key, now);
      SettleKeeps(limits, history, buckets, clock, key, kept, now);
      buckets := Settled(buckets, key, kept);
      clock := now;
      limited := kept != [] && |kept| >= LimitFor(limits, key.1);
    }

    /** `try_acquire_per_user_slot`: granted exactly if the full, never pruned history
        holds fewer than the limit in the window; a grant is recorded. */
    method TryAcquire(key: Key, now: real) returns (granted: bool)
      requires Valid() && clock <= now
      modifies this
      ensures Valid() && clock == now
      ensures granted <==> InWindow(At(old(history), key), now) < LimitFor(limits, key.1)
      ensures history == if granted then old(history)[key := At(old(history), key) + [now]] else old(history)
    {
      var kept := Pruned(key, now);
      SettleKeeps(limits, history, buckets, clock, key, kept, now);
      buckets := Settled(buckets, key, kept);
      clock := now;
      if |kept| >= LimitFor(limits, key.1) {
        return false;
      }
      AppendsKeep(limits, history, buckets, key, now);
      history := history[key := At(history, key) + [now]];
      buckets := buckets[key := kept + [now]];
      return true;
    }
  }

  /** In every reachable state of a guard every window of ten seconds, wherever it
      ends, holds at most the limit for each user and action. */
  lemma GuardCapsEveryWindow(g: Guard, key: Key, t: real)
    requires g.Valid() && LimitFor(g.limits, key.1) >= 0
    ensures InWindow(At(g.history, key), t) <= LimitFor(g.limits, key.1)
  {
    assert KeyOk(At(g.history, key), At(g.buckets, key), LimitFor(g.limits, key.1), g.clock);
    EveryWindowCapped(At(g.history, key), LimitFor(g.limits, key.1), t);
  }
}
