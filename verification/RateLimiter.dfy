/** The sliding-window limiter of backchannel requests (src/ciba.rs:227-274). */
module RateLimiter {

  type Key = (string, string)   // client and account

  type Queues = map<Key, seq<nat>>

  /** Time from `then_` to `now`, zero if the clock seems to go back. */
  function Elapsed(now: nat, then_: nat): nat {
    if then_ <= now then now - then_ else 0
  }

  /** The queue without the entries older than the window, dropped from the front. */
  function Kept(q: seq<nat>, window: nat, now: nat): seq<nat> {
    if q == [] || Elapsed(now, q[0]) <= window then q else Kept(q[1..], window, now)
  }

  function QueueOf(queues: Queues, key: Key): seq<nat> {
    if key in queues then queues[key] else []
  }

  function Checked(q: seq<nat>, window: nat, max: nat, now: nat): (bool, seq<nat>) {
    var kept := Kept(q, window, now);
    if |kept| >= max then (false, kept) else (true, kept + [now])
  }

  class CibaRateLimiter {
    const window: nat
    const max: nat
    var queues: Queues

    constructor (window: nat, max: nat)
      ensures this.window == window && this.max == max && queues == map[]
    {
      this.window, this.max, queues := window, max, map[];
    }

    method CheckAndRecord(key: Key, now: nat) returns (ok: bool)
      modifies this
      ensures (ok, queues) ==
        var (admitted, q) := Checked(QueueOf(old(queues), key), window, max, now);
        (admitted, old(queues)[key := q])
    {
      var q := QueueOf(queues, key);
      while q != [] && Elapsed(now, q[0]) > window
        invariant Kept(q, window, now) == Kept(QueueOf(queues, key), window, now)
        decreases |q|
      {
        q := q[1..];
      }
      ok := |q| < max;
      if ok {
        q := q + [now];
      }
      queues := queues[key := q];
    }
  }

  // ----- Any history of calls -----

  datatype Call = Call(key: Key, now: nat)

  function Run(window: nat, max: nat, calls: seq<Call>): Queues {
    if calls == [] then map[]
    else
      var before, c := Run(window, max, calls[..|calls| - 1]), calls[|calls| - 1];
      before[c.key := Checked(QueueOf(before, c.key), window, max, c.now).1]
  }

  /** The answer to the last call. */
  function Admits(window: nat, max: nat, calls: seq<Call>): bool
    requires calls != []
  {
    var c := calls[|calls| - 1];
    Checked(QueueOf(Run(window, max, calls[..|calls| - 1]), c.key), window, max, c.now).0
  }

  /** When calls for `key` were admitted. */
  function Admitted(window: nat, max: nat, calls: seq<Call>, key: Key): seq<nat> {
    if calls == [] then []
    else
      var c := calls[|calls| - 1];
      Admitted(window, max, calls[..|calls| - 1], key) +
      if c.key == key && Admits(window, max, calls) then [c.now] else []
  }

  ghost predicate Ordered(calls: seq<Call>) {
    forall i, j :: 0 <= i < j < |calls| ==> calls[i].now <= calls[j].now
  }

  /** How many of `times` lie in the closed interval from `lo` to `hi`. */
  function Count(times: seq<nat>, lo: int, hi: int): nat {
    if times == [] then 0
    else Count(times[..|times| - 1], lo, hi) + if lo <= times[|times| - 1] <= hi then 1 else 0
  }

  // ----- The queue holds the recent end of the admitted times -----

  ghost predicate Sorted(times: seq<nat>, clock: nat) {
    && (forall i, j :: 0 <= i < j < |times| ==> times[i] <= times[j])
    && (forall i :: 0 <= i < |times| ==> times[i] <= clock)
  }

  ghost predicate Recent(q: seq<nat>, times: seq<nat>, window: nat, clock: nat) {
    && |q| <= |times| && q == times[|times| - |q|..]
    && (forall i :: 0 <= i < |times| - |q| ==> times[i] + window < clock)
  }

  ghost predicate Spaced(times: seq<nat>, window: nat, max: nat) {
    forall i, j :: 0 <= i && j == i + max && j < |times| ==> times[i] + window < times[j]
  }

  lemma {:induction false} KeptIsRecent(q: seq<nat>, times: seq<nat>, window: nat, clock: nat, now: nat)
    requires Sorted(times, clock) && Recent(q, times, window, clock) && clock <= now
    ensures Recent(Kept(q, window, now), times, window, now)
    ensures forall i :: 0 <= i < |Kept(q, window, now)| ==> now <= Kept(q, window, now)[i] + window
    decreases |q|
  {
    if q != [] && Elapsed(now, q[0]) > window {
      assert q[0] == times[|times| - |q|];
      KeptIsRecent(q[1..], times, window, now, now);
    } else if q != [] {
      assert q[0] == times[|times| - |q|];
      forall i | 0 <= i < |q| ensures now <= q[i] + window { assert q[i] == times[|times| - |q| + i]; }
    }
  }

  ghost predicate Inv(q: seq<nat>, times: seq<nat>, window: nat, max: nat, clock: nat) {
    && Sorted(times, clock) && Spaced(times, window, max) && (max == 0 ==> times == [])
    && Recent(q, times, window, clock)
  }

  lemma CheckKeepsInv(q: seq<nat>, times: seq<nat>, window: nat, max: nat, now: nat)
    requires Inv(q, times, window, max, now)
    ensures var (ok, q') := Checked(q, window, max, now);
      Inv(q', if ok then times + [now] else times, window, max, now)
  {
    KeptIsRecent(q, times, window, now, now);
    if |Kept(q, window, now)| < max {
      AdmitKeepsSpacing(Kept(q, window, now), times, window, max, now);
    }
  }

  lemma InvLater(q: seq<nat>, times: seq<nat>, window: nat, max: nat, clock: nat, later: nat)
    requires Inv(q, times, window, max, clock) && clock <= later
    ensures Inv(q, times, window, max, later)
  {}

  function QueueAfter(q: seq<nat>, window: nat, max: nat, now: nat, own: bool): seq<nat> {
    if own then Checked(q, window, max, now).1 else q
  }

  function TimesAfter(q: seq<nat>, times: seq<nat>, window: nat, max: nat, now: nat, own: bool): seq<nat> {
    times + if own && Checked(q, window, max, now).0 then [now] else []
  }

  lemma StepInv(q: seq<nat>, times: seq<nat>, window: nat, max: nat, now: nat, own: bool, later: nat)
    requires Inv(q, times, window, max, now) && now <= later
    ensures Inv(QueueAfter(q, window, max, now, own), TimesAfter(q, times, window, max, now, own), window, max, later)
  {
    assert times + [] == times;
    if own { CheckKeepsInv(q, times, window, max, now); }
    var q', times' := QueueAfter(q, window, max, now, own), TimesAfter(q, times, window, max, now, own);
    InvLater(q', times', window, max, now, later);
  }

  lemma RunStep(window: nat, max: nat, calls: seq<Call>, key: Key)
    requires calls != []
    ensures var before, c := calls[..|calls| - 1], calls[|calls| - 1];
      var q := QueueOf(Run(window, max, before), key);
      QueueOf(Run(window, max, calls), key) == QueueAfter(q, window, max, c.now, c.key == key) &&
      Admitted(window, max, calls, key) ==
        TimesAfter(q, Admitted(window, max, before, key), window, max, c.now, c.key == key)
  {}

  lemma {:induction false} RunInv(window: nat, max: nat, calls: seq<Call>, key: Key, clock: nat)
    requires Ordered(calls) && (calls != [] ==> calls[|calls| - 1].now <= clock)
    ensures Inv(QueueOf(Run(window, max, calls), key), Admitted(window, max, calls, key), window, max, clock)
  {
    if calls != [] {
      var before, c := calls[..|calls| - 1], calls[|calls| - 1];
      RunInv(window, max, before, key, c.now);
      RunStep(window, max, calls, key);
      StepInv(QueueOf(Run(window, max, before), key), Admitted(window, max, before, key), window, max, c.now,
              c.key == key, clock);
    }
  }

  lemma AdmitKeepsSpacing(kept: seq<nat>, times: seq<nat>, window: nat, max: nat, now: nat)
    requires Sorted(times, now) && Spaced(times, window, max) && Recent(kept, times, window, now) && |kept| < max
    ensures Sorted(times + [now], now) && Spaced(times + [now], window, max)
    ensures Recent(kept + [now], times + [now], window, now)
  {
  }

  // ----- Main results -----

  lemma {:induction false} CountInside(times: seq<nat>, lo: int, hi: int)
    requires forall i :: 0 <= i < |times| ==> lo <= times[i] <= hi
    ensures Count(times, lo, hi) == |times|
  {
    if times != [] { CountInside(times[..|times| - 1], lo, hi); }
  }

  lemma {:induction false} CountTail(times: seq<nat>, d: nat, lo: int, hi: int)
    requires d <= |times| && forall i :: 0 <= i < d ==> times[i] < lo
    ensures Count(times, lo, hi) == Count(times[d..], lo, hi) <= |times| - d
    decreases |times|
  {
    if |times| > d {
      CountTail(times[..|times| - 1], d, lo, hi);
      assert times[d..][..|times| - d - 1] == times[..|times| - 1][d..];
    } else if d > 0 {
      CountTail(times[..d - 1], d - 1, lo, hi);
    }
  }

  /** The interval reaches the last time: everything `max` places before that is too old. */
  lemma CountUpToLast(times: seq<nat>, window: nat, max: nat, clock: nat, lo: int)
    requires Sorted(times, clock) && Spaced(times, window, max)
    requires times != [] && times[|times| - 1] <= lo + window
    ensures Count(times, lo, lo + window) <= max
  {
    var last := |times| - 1;
    var d := if last >= max then last - max + 1 else 0;
    if last >= max {
      assert times[last - max] + window < times[last];
      forall i | 0 <= i < d ensures times[i] < lo { assert times[i] <= times[last - max]; }
    }
    CountTail(times, d, lo, lo + window);
  }

  lemma SpacedFront(times: seq<nat>, window: nat, max: nat, clock: nat)
    requires Sorted(times, clock) && Spaced(times, window, max) && times != []
    ensures Sorted(times[..|times| - 1], clock) && Spaced(times[..|times| - 1], window, max)
  {}

  lemma {:induction false} SpacedCount(times: seq<nat>, window: nat, max: nat, clock: nat, lo: int)
    requires Sorted(times, clock) && Spaced(times, window, max) && (max == 0 ==> times == [])
    ensures Count(times, lo, lo + window) <= max
    decreases |times|
  {
    if times != [] {
      if times[|times| - 1] <= lo + window {
        CountUpToLast(times, window, max, clock, lo);
      } else {
        SpacedFront(times, window, max, clock);
        SpacedCount(times[..|times| - 1], window, max, clock, lo);
      }
    }
  }

  /** Over any history, a closed interval as long as the window holds at most `max` admitted calls. */
  lemma AtMostMaxPerWindow(window: nat, max: nat, calls: seq<Call>, key: Key, lo: int)
    requires Ordered(calls)
    ensures Count(Admitted(window, max, calls, key), lo, lo + window) <= max
  {
    var clock := if calls == [] then 0 else calls[|calls| - 1].now;
    RunInv(window, max, calls, key, clock);
    SpacedCount(Admitted(window, max, calls, key), window, max, clock, lo);
  }

  lemma CountSuffix(times: seq<nat>, d: nat, lo: int, hi: int)
    requires d <= |times| && (forall i :: 0 <= i < d ==> times[i] < lo)
    requires forall i :: d <= i < |times| ==> lo <= times[i] <= hi
    ensures Count(times, lo, hi) == |times| - d
  {
    CountTail(times, d, lo, hi);
    CountInside(times[d..], lo, hi);
  }

  /** Dropped times lie before the window, kept ones in it. */
  ghost predicate SplitByWindow(kept: seq<nat>, times: seq<nat>, window: nat, now: nat) {
    && |kept| <= |times| && (forall i :: 0 <= i < |times| - |kept| ==> times[i] < now - window)
    && (forall i :: |times| - |kept| <= i < |times| ==> now - window <= times[i] <= now)
  }

  lemma KeptIsInside(kept: seq<nat>, times: seq<nat>, window: nat, now: nat)
    requires Sorted(times, now) && Recent(kept, times, window, now)
    requires forall i :: 0 <= i < |kept| ==> now <= kept[i] + window
    ensures SplitByWindow(kept, times, window, now)
  {
    var d := |times| - |kept|;
    forall i | d <= i < |times| ensures now - window <= times[i] { assert times[i] == kept[i - d]; }
  }

  lemma CountRecent(q: seq<nat>, times: seq<nat>, window: nat, max: nat, now: nat)
    requires Inv(q, times, window, max, now)
    ensures Count(times, now - window, now) == |Kept(q, window, now)|
  {
    var kept := Kept(q, window, now);
    KeptIsRecent(q, times, window, now, now);
    KeptIsInside(kept, times, window, now);
    CountSuffix(times, |times| - |kept|, now - window, now);
  }

  lemma CountIsQueueLength(window: nat, max: nat, before: seq<Call>, key: Key, now: nat)
    requires Ordered(before) && (before != [] ==> before[|before| - 1].now <= now)
    ensures Count(Admitted(window, max, before, key), now - window, now) ==
            |Kept(QueueOf(Run(window, max, before), key), window, now)|
  {
    RunInv(window, max, before, key, now);
    CountRecent(QueueOf(Run(window, max, before), key), Admitted(window, max, before, key), window, max, now);
  }

  lemma RefusedWhenCountIs(window: nat, max: nat, calls: seq<Call>, n: nat)
    requires calls != []
    requires var before, c := calls[..|calls| - 1], calls[|calls| - 1];
      n == |Kept(QueueOf(Run(window, max, before), c.key), window, c.now)|
    ensures !Admits(window, max, calls) <==> n >= max
  {}

  lemma OrderedBefore(before: seq<Call>, c: Call)
    requires Ordered(before + [c])
    ensures Ordered(before) && (before != [] ==> before[|before| - 1].now <= c.now)
  {
    var calls := before + [c];
    assert forall i :: 0 <= i < |before| ==> before[i] == calls[i];
    assert calls[|before|] == c;
  }

  /** A call is refused exactly when `max` admitted calls lie in the window that ends with it. */
  lemma RefusedExactlyWhenFull(window: nat, max: nat, before: seq<Call>, c: Call)
    requires Ordered(before + [c])
    ensures !Admits(window, max, before + [c]) <==>
            Count(Admitted(window, max, before, c.key), c.now - window, c.now) >= max
  {
    var calls := before + [c];
    assert calls[..|calls| - 1] == before;
    OrderedBefore(before, c);
    CountIsQueueLength(window, max, before, c.key, c.now);
    RefusedWhenCountIs(window, max, calls, Count(Admitted(window, max, before, c.key), c.now - window, c.now));
  }
}
