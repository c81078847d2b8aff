/** Granting slots at a bounded rate, and one lock for each host. */
module RateLimit {

  function Max(a: real, b: real): real {
    if a < b then b else a
  }

  /** `k` intervals. */
  function Intervals(k: nat, interval: real): real {
    if k == 0 then 0.0 else Intervals(k - 1, interval) + interval
  }

  /** The slots granted to these arrivals, in order, when none may come before `next`. */
  function Slots(arrivals: seq<real>, interval: real, next: real): (r: seq<real>)
    ensures |r| == |arrivals|
  {
    if arrivals == [] then [] else
    var slot := Max(arrivals[0], next);
    [slot] + Slots(arrivals[1..], interval, slot + interval)
  }

  lemma {:induction false} IntervalsProduct(k: nat, interval: real)
    ensures Intervals(k, interval) == k as real * interval
  {
    if k > 0 {
      IntervalsProduct(k - 1, interval);
    }
  }

  /** A slot is the latest of the times that hold it back: the start, and every arrival up to its
      own with an interval for each slot in between; and it is one of them. */
  lemma {:induction false} SlotHeldBack(arrivals: seq<real>, interval: real, next: real, k: nat)
    requires k < |arrivals|
    ensures var slot := Slots(arrivals, interval, next)[k];
            && slot >= next + Intervals(k, interval)
            && (forall j :: 0 <= j <= k ==> slot >= arrivals[j] + Intervals(k - j, interval))
            && (slot == next + Intervals(k, interval)
                || exists j :: 0 <= j <= k && slot == arrivals[j] + Intervals(k - j, interval))
    decreases k
  {
    var first := Max(arrivals[0], next);
    if k > 0 {
      var rest, next' := arrivals[1..], first + interval;
      SlotHeldBack(rest, interval, next', k - 1);
      var slot := Slots(arrivals, interval, next)[k];
      forall j | 0 <= j <= k ensures slot >= arrivals[j] + Intervals(k - j, interval) {
        if j > 0 {
          assert rest[j - 1] == arrivals[j];
        }
      }
      if slot != next' + Intervals(k - 1, interval) {
        var j :| 0 <= j <= k - 1 && slot == rest[j] + Intervals(k - 1 - j, interval);
        assert slot == arrivals[j + 1] + Intervals(k - (j + 1), interval);
      }
    }
  }

  /** On a clock that starts at zero, slot `k` is the greatest over `j <= k` of arrival `j` and
      `k - j` intervals. */
  lemma SlotIsGreatest(arrivals: seq<real>, interval: real, k: nat)
    requires k < |arrivals| && arrivals[0] >= 0.0
    ensures var slot := Slots(arrivals, interval, 0.0)[k];
            && (forall j :: 0 <= j <= k ==> slot >= arrivals[j] + Intervals(k - j, interval))
            && (exists j :: 0 <= j <= k && slot == arrivals[j] + Intervals(k - j, interval))
  {
    SlotHeldBack(arrivals, interval, 0.0, k);
    var slot := Slots(arrivals, interval, 0.0)[k];
    if slot == 0.0 + Intervals(k, interval) {
      assert slot == arrivals[0] + Intervals(k - 0, interval);
    }
  }

  /** Between two slots there is an interval for each step. */
  lemma {:induction false} SlotsApart(arrivals: seq<real>, interval: real, next: real, i: nat, k: nat)
    requires i <= k < |arrivals|
    ensures var s := Slots(arrivals, interval, next); s[k] >= s[i] + Intervals(k - i, interval)
    decreases i
  {
    var slot := Max(arrivals[0], next);
    if i > 0 {
      SlotsApart(arrivals[1..], interval, slot + interval, i - 1, k - 1);
    } else if k > 0 {
      SlotHeldBack(arrivals[1..], interval, slot + interval, k - 1);
    }
  }

  /** Any stretch of time holds at most its length times the rate, and one more. */
  lemma RateBound(arrivals: seq<real>, rate: real, next: real, i: nat, k: nat, from: real, length: real)
    requires rate > 0.0 && i <= k < |arrivals|
    requires var s := Slots(arrivals, 1.0 / rate, next); from <= s[i] && s[k] <= from + length
    ensures (k - i + 1) as real <= length * rate + 1.0
  {
    var interval := 1.0 / rate;
    SlotsApart(arrivals, interval, next, i, k);
    IntervalsProduct(k - i, interval);
    var n := (k - i) as real;
    assert n * interval <= length;
    assert interval * rate == 1.0;
    Associate(n, interval, rate);
    ScaleUp(n * interval, length, rate);
  }

  lemma Associate(a: real, b: real, c: real)
    ensures a * b * c == a * (b * c)
  {
  }

  lemma ScaleUp(a: real, b: real, rate: real)
    requires a <= b && rate > 0.0
    ensures a * rate <= b * rate
  {
  }

  /** No schedule that waits for every arrival and keeps the spacing grants any slot earlier. */
  lemma {:induction false} SlotsEarliest(arrivals: seq<real>, interval: real, next: real, other: seq<real>, k: nat)
    requires |other| == |arrivals| && k < |arrivals|
    requires forall j :: 0 <= j < |other| ==> other[j] >= arrivals[j]
    requires forall j :: 0 < j < |other| ==> other[j] >= other[j - 1] + interval
    requires other[0] >= next
    ensures other[k] >= Slots(arrivals, interval, next)[k]
    decreases k
  {
    if k > 0 {
      var slot := Max(arrivals[0], next);
      assert forall j :: 0 <= j < |other[1..]| ==> other[1..][j] == other[j + 1] && arrivals[1..][j] == arrivals[j + 1];
      assert other[1] >= other[0] + interval;
      SlotsEarliest(arrivals[1..], interval, slot + interval, other[1..], k - 1);
    }
  }

  lemma {:induction false} SlotsSnoc(arrivals: seq<real>, interval: real, next: real, now: real)
    ensures var s := Slots(arrivals, interval, next);
            Slots(arrivals + [now], interval, next) == s + [Max(now, if s == [] then next else s[|s| - 1] + interval)]
  {
    if arrivals == [] {
      assert arrivals + [now] == [now];
    } else {
      var slot := Max(arrivals[0], next);
      SlotsSnoc(arrivals[1..], interval, slot + interval, now);
      assert (arrivals + [now])[1..] == arrivals[1..] + [now];
    }
  }

  // ------------------------------------------------------------- the limiter

  class HostLock {
    constructor () {}
  }

  class RateLimiter {
    const requestsPerSecond: real
    var nextRequest: real
    var locks: map<string, HostLock>
    ghost var arrivals: seq<real>
    ghost var granted: seq<real>

    /** What was granted is the schedule of what arrived, and no two hosts share a lock. */
    ghost predicate Valid()
      reads this
    {
      && (requestsPerSecond > 0.0 ==>
            && granted == Slots(arrivals, 1.0 / requestsPerSecond, 0.0)
            && nextRequest == if granted == [] then 0.0 else granted[|granted| - 1] + 1.0 / requestsPerSecond)
      && (forall a, b :: a in locks && b in locks && a != b ==> locks[a] != locks[b])
    }

    constructor (requestsPerSecond: real)
      ensures Valid() && this.requestsPerSecond == requestsPerSecond
      ensures locks == map[] && arrivals == granted == []
    {
      this.requestsPerSecond, nextRequest, locks := requestsPerSecond, 0.0, map[];
      arrivals, granted := [], [];
    }

    method GetLock(hostname: string) returns (lock: HostLock)
      requires Valid()
      modifies this`locks
      ensures Valid() && hostname in locks && lock == locks[hostname]
      ensures locks.Keys == old(locks).Keys + {hostname}
      ensures forall h :: h in old(locks) ==> locks[h] == old(locks[h])
      ensures hostname !in old(locks) ==> fresh(lock)
    {
      if hostname !in locks {
        var created := new HostLock();
        locks := locks[hostname := created];
      }
      return locks[hostname];
    }

    method WaitForSlot(now: real) returns (delay: real)
      requires Valid()
      modifies this`nextRequest, this`arrivals, this`granted
      ensures Valid() && delay >= 0.0
      ensures requestsPerSecond <= 0.0 ==> delay == 0.0 && granted == old(granted)
      ensures requestsPerSecond > 0.0 ==>
                arrivals == old(arrivals) + [now] && granted == old(granted) + [now + delay]
    {
      if requestsPerSecond <= 0.0 {
        return 0.0;
      }
      var interval := 1.0 / requestsPerSecond;
      SlotsSnoc(arrivals, interval, 0.0, now);
      delay := Max(0.0, nextRequest - now);
      arrivals, granted := arrivals + [now], granted + [now + delay];
      nextRequest := Max(now, nextRequest) + interval;
    }
  }
}
