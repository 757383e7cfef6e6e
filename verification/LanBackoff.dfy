/**
  Doubling intervals (lan.go:996-1012, 1079-1158): the closed form of the probe and broadcast
  intervals, and the broadcast schedule of the scanner.
*/
module LanBackoff {
  import opened Bytes
  import opened LanKeepalive
  import opened LanFlap

  /** min(max, min * 2^(n-1)). */
  function Closed(min: int64, max: int64, n: nat): int
    requires n >= 1
  {
    if min * Pow2(n - 1) < max then min * Pow2(n - 1) else max
  }

  /** No doubling below the maximum leaves 64 bits, or nothing is ever doubled past the maximum. */
  predicate NoOverflow(min: int64, max: int64)
  {
    min <= max && (max < TWO62 || max == min)
  }

  lemma {:induction false} IteratedClosed(min: int64, max: int64, n: nat)
    requires min > 0 && n >= 1 && NoOverflow(min, max)
    ensures Iterated(min, max, n) == Closed(min, max, n)
  {
    if n == 1 {
      assert Pow2(0) == 1;
      assert Iterated(min, max, 0) == 0;
    } else {
      IteratedClosed(min, max, n - 1);
      var a, p := Iterated(min, max, n - 1), Pow2(n - 2);
      assert Pow2(n - 1) == 2 * p;
      Doubling(min, p);
      DoublingSteps(a, min, max);
      assert min * p >= min;
    }
  }

  lemma Doubling(m: int, p: int)
    ensures m * (2 * p) == 2 * (m * p)
  {
  }

  /** One update from a positive interval between the bounds, when nothing can overflow. */
  lemma DoublingSteps(a: int64, min: int64, max: int64)
    requires 0 < min <= a <= max && (max < TWO62 || max == min)
    ensures NextInterval(a, min, max) == if 2 * a < max then 2 * a else max
  {
    if max >= TWO62 {
      assert a == max;
      WrapDoubled(a);
    }
  }

  /** Doubling at or above 2^62 wraps to a negative number. */
  lemma WrapDoubled(a: int64)
    requires a >= TWO62
    ensures Wrap64(2 * a) == 2 * a - TWO64 < 0
  {
  }

  lemma {:induction false} Reaches(min: int64, n: nat)
    requires min > 0
    ensures min * Pow2(n) >= n + 1
  {
    if n > 0 {
      Reaches(min, n - 1);
      Doubling(min, Pow2(n - 1));
    } else {
      assert Pow2(0) == 1;
    }
  }

  /** The least exponent at which the doubled minimum reaches `bound`. */
  lemma {:induction false} FirstReach(min: int64, bound: nat, k: nat) returns (n: nat)
    requires min > 0 && min * Pow2(k) >= bound
    ensures n <= k && min * Pow2(n) >= bound
    ensures forall i :: 0 <= i < n ==> min * Pow2(i) < bound
  {
    if forall i :: 0 <= i < k ==> min * Pow2(i) < bound {
      n := k;
    } else {
      var i :| 0 <= i < k && min * Pow2(i) >= bound;
      n := FirstReach(min, bound, i);
    }
  }

  /** Below the overflow point the iteration follows the closed form whatever the maximum. */
  lemma {:induction false} ClosedBelow(min: int64, max: int64, n: nat)
    requires 0 < min < max
    requires forall i :: 0 <= i < n ==> min * Pow2(i) < TWO62
    ensures Iterated(min, max, n + 1) == Closed(min, max, n + 1)
    decreases n
  {
    if n == 0 {
      assert Pow2(0) == 1 && Iterated(min, max, 0) == 0;
      assert Iterated(min, max, 1) == NextInterval(Iterated(min, max, 0), min, max);
    } else {
      ClosedBelow(min, max, n - 1);
      var a, p := Iterated(min, max, n), Pow2(n - 1);
      assert Pow2(n) == 2 * p;
      Doubling(min, p);
      assert a <= min * p < TWO62;
      assert min * p >= min;
      assert Iterated(min, max, n + 1) == NextInterval(a, min, max);
    }
  }

  /** With room to double past 2^62 the interval wraps and falls back to the minimum. */
  lemma FallsBack(min: int64, max: int64) returns (n: nat)
    requires 0 < min < max && max >= TWO62
    ensures n >= 1 && Iterated(min, max, n) != Closed(min, max, n)
  {
    Reaches(min, TWO62);
    var k := FirstReach(min, TWO62, TWO62);
    ClosedBelow(min, max, k);
    var a := Iterated(min, max, k + 1);
    assert a >= TWO62;
    WrapDoubled(a);
    n := k + 2;
    assert Iterated(min, max, n) == min by {
      assert Iterated(min, max, n) == NextInterval(a, min, max);
    }
    assert Pow2(k + 1) == 2 * Pow2(k);
    Doubling(min, Pow2(k));
  }

  /** Exactly the bounds for which the intervals are min(max, min * 2^(n-1)) for every n. */
  lemma ClosedFormIff(min: int64, max: int64)
    requires min > 0
    ensures (forall n: nat :: n >= 1 ==> Iterated(min, max, n) == Closed(min, max, n)) <==> NoOverflow(min, max)
  {
    if NoOverflow(min, max) {
      forall n: nat | n >= 1
        ensures Iterated(min, max, n) == Closed(min, max, n)
      {
        IteratedClosed(min, max, n);
      }
    } else if min > max {
      assert Pow2(0) == 1 && Iterated(min, max, 0) == 0;
      assert Iterated(min, max, 1) == NextInterval(0, min, max) == min;
      assert Closed(min, max, 1) == max;
    } else {
      var n := FallsBack(min, max);
      assert n >= 1 && Iterated(min, max, n) != Closed(min, max, n);
    }
  }

  // ---------------------------------------------------------------- the closed form for configured bounds

  /** The configurations whose probe intervals cannot overflow. */
  predicate KeepaliveBounded(c: Config)
  {
    if c.keepaliveMax > 0 then c.keepaliveMax < TWO62 || c.keepaliveMax <= KeepaliveMin(c)
    else KeepaliveMin(c) < TWO62 / 4
  }

  lemma KeepaliveBoundsIff(c: Config)
    ensures NoOverflow(KeepaliveMin(c), KeepaliveMax(c)) <==> KeepaliveBounded(c)
  {
  }

  /**
    The configurations whose broadcast intervals cannot overflow; an unset maximum is 45 seconds whatever the
    minimum.
  */
  predicate BroadcastsBounded(c: Config)
  {
    if c.broadcastMax > 0 then c.broadcastMax < TWO62 || c.broadcastMax <= BroadcastMin(c)
    else BroadcastMin(c) <= 45 * SECOND
  }

  lemma BroadcastBoundsIff(c: Config)
    ensures NoOverflow(BroadcastMin(c), BroadcastMax(c)) <==> BroadcastsBounded(c)
  {
  }

  /** The probe interval of an online device after its n-th success since it came online, failures in between or not. */
  lemma KeepaliveClosedForm(c: Config, events: seq<Event>)
    requires KeepaliveBounded(c) && After(c, events).online
    ensures Successes(c, events) >= 1
    ensures After(c, events).keepaliveInterval == Closed(KeepaliveMin(c), KeepaliveMax(c), Successes(c, events))
  {
    KeepaliveBoundsIff(c);
    IntervalOfRun(c, events);
    IteratedClosed(KeepaliveMin(c), KeepaliveMax(c), Successes(c, events));
  }

  /** Exactly the configurations for which every broadcast interval has the closed form. */
  lemma BroadcastFormIff(c: Config)
    ensures (forall n: nat :: n >= 1 ==>
               Iterated(BroadcastMin(c), BroadcastMax(c), n) == Closed(BroadcastMin(c), BroadcastMax(c), n)) <==>
            BroadcastsBounded(c)
  {
    BroadcastBoundsIff(c);
    ClosedFormIff(BroadcastMin(c), BroadcastMax(c));
  }

  // ---------------------------------------------------------------- broadcasts

  /** The broadcast fields of the client; the zero time is 0. */
  class Broadcaster {
    var interfaces: seq<string>
    var nextBroadcast: int
    var backoff: int64
    /** Broadcasts since the interfaces were last replaced. */
    ghost var sent: nat

    ghost predicate Valid(c: Config)
      reads this
    {
      backoff == Iterated(BroadcastMin(c), BroadcastMax(c), sent)
    }

    constructor (c: Config)
      ensures Valid(c) && sent == 0 && interfaces == [] && nextBroadcast == 0
    {
      interfaces, nextBroadcast, backoff, sent := [], 0, 0, 0;
    }

    method UpdateInterfaces(c: Config, names: seq<string>)
      modifies this
      ensures Valid(c) && sent == 0 && interfaces == names && nextBroadcast == 0
    {
      interfaces, nextBroadcast, backoff, sent := names, 0, 0, 0;
    }

    /** A scan broadcasts on every interface when one is due, and then not before the current interval has passed. */
    method BroadcastTargets(c: Config, now: int) returns (targets: seq<string>)
      requires Valid(c)
      modifies this`nextBroadcast, this`backoff, this`sent
      ensures Valid(c)
      ensures var due := old(interfaces) != [] && (old(nextBroadcast) == 0 || now >= old(nextBroadcast));
              && targets == (if due then interfaces else [])
              && sent == old(sent) + (if due then 1 else 0)
              && nextBroadcast == if due then now + backoff else old(nextBroadcast)
    {
      if |interfaces| == 0 {
        return [];
      }
      if nextBroadcast != 0 && now < nextBroadcast {
        return [];
      }
      targets := interfaces;
      if backoff <= 0 {
        backoff := BroadcastMin(c);
      } else {
        backoff := Wrap64(backoff * 2);
        if backoff < BroadcastMin(c) {
          backoff := BroadcastMin(c);
        }
        var max := BroadcastMax(c);
        if backoff > max {
          backoff := max;
        }
      }
      nextBroadcast := now + backoff;
      sent := sent + 1;
    }
  }

  /** The interval after the n-th broadcast since the interfaces were replaced. */
  lemma BroadcastClosedForm(c: Config, b: Broadcaster)
    requires b.Valid(c) && b.sent >= 1 && BroadcastsBounded(c)
    ensures b.backoff == Closed(BroadcastMin(c), BroadcastMax(c), b.sent)
  {
    BroadcastBoundsIff(c);
    IteratedClosed(BroadcastMin(c), BroadcastMax(c), b.sent);
  }
}
