/**
  Liveness of one LAN device (lan.go:989-1188): ping successes and failures, doubling probe
  intervals, and suppression of devices that flap. Durations are 64-bit nanosecond counts that
  wrap as Go's do; points in time are integers and the zero time is 0.
*/
module LanKeepalive {

  const TWO62 := 0x4000_0000_0000_0000
  const TWO63 := 0x8000_0000_0000_0000
  const TWO64 := 0x1_0000_0000_0000_0000
  const SECOND := 1_000_000_000

  type int64 = x: int | -TWO63 <= x < TWO63

  function Wrap64(x: int): (r: int64)
    ensures -TWO63 <= x < TWO63 ==> r == x
  {
    var m := x % TWO64;
    if m < TWO63 then m else m - TWO64
  }

  // ---------------------------------------------------------------- configuration

  datatype Config = Config(
    probeInterval: int64, fastRetryInterval: int64,
    keepaliveMin: int64, keepaliveMax: int64,
    broadcastMin: int64, broadcastMax: int64,
    unstableWindow: int64, unstableResumeDelay: int64,
    unstableThreshold: int, offlineThreshold: int)

  function FastRetryInterval(c: Config): (d: int64)
    ensures d > 0
  {
    if c.fastRetryInterval > 0 then c.fastRetryInterval
    else if 0 < c.probeInterval < 5 * SECOND then c.probeInterval
    else 5 * SECOND
  }

  function KeepaliveMin(c: Config): (d: int64)
    ensures d > 0
  {
    if c.keepaliveMin > 0 then c.keepaliveMin
    else if c.probeInterval > 0 then c.probeInterval
    else 10 * SECOND
  }

  function KeepaliveMax(c: Config): (d: int64)
    ensures c.keepaliveMax > 0 || KeepaliveMin(c) < TWO62 / 2 ==> d >= KeepaliveMin(c)
  {
    if c.keepaliveMax > 0 then
      if c.keepaliveMax < KeepaliveMin(c) then KeepaliveMin(c) else c.keepaliveMax
    else Wrap64(KeepaliveMin(c) * 4)
  }

  function BroadcastMin(c: Config): (d: int64)
    ensures d > 0
  {
    if c.broadcastMin > 0 then c.broadcastMin else 5 * SECOND
  }

  function BroadcastMax(c: Config): (d: int64)
    ensures d > 0
  {
    if c.broadcastMax > 0 then
      if c.broadcastMax < BroadcastMin(c) then BroadcastMin(c) else c.broadcastMax
    else 45 * SECOND
  }

  function Window(c: Config): (d: int64)
    ensures d > 0
  {
    if c.unstableWindow > 0 then c.unstableWindow else 120 * SECOND
  }

  function ResumeDelay(c: Config): (d: int64)
    ensures d > 0
  {
    if c.unstableResumeDelay > 0 then c.unstableResumeDelay else 300 * SECOND
  }

  function Threshold(c: Config): (n: int)
    ensures n > 0
  {
    if c.unstableThreshold > 0 then c.unstableThreshold else 10
  }

  // ---------------------------------------------------------------- the interval after one more success

  /** The update of `keepaliveInterval` while online and of `broadcastBackoff`: start, double, clamp. */
  function NextInterval(current: int64, min: int64, max: int64): int64
  {
    if current <= 0 then min
    else
      var doubled := Wrap64(2 * current);
      var raised := if doubled < min then min else doubled;
      if raised > max then max else raised
  }

  // ---------------------------------------------------------------- transition history

  /** The items later than `cutoff`, in order. */
  function Prune(history: seq<int>, cutoff: int): (r: seq<int>)
    ensures |r| <= |history|
  {
    if history == [] then []
    else
      var n := |history| - 1;
      Prune(history[..n], cutoff) + (if history[n] > cutoff then [history[n]] else [])
  }

  predicate IsUnstable(c: Config, history: seq<int>, now: int)
  {
    |history| >= Threshold(c) && now - history[0] <= Window(c)
  }

  /** Filters the first `n` elements where they stand: the write index never passes the read index. */
  method PruneInPlace(a: array<int>, n: nat, cutoff: int) returns (kept: nat)
    requires n <= a.Length
    modifies a
    ensures kept <= n && a[..kept] == Prune(old(a[..n]), cutoff)
  {
    kept := 0;
    assert old(a[..n])[..0] == [];
    for i := 0 to n
      invariant kept <= i
      invariant forall k :: i <= k < n ==> a[k] == old(a[k])
      invariant a[..kept] == Prune(old(a[..n])[..i], cutoff)
    {
      var item := a[i];
      assert item == old(a[..n])[i];
      assert old(a[..n])[..i + 1][..i] == old(a[..n])[..i];
      if item > cutoff {
        a[kept] := item;
        kept := kept + 1;
      }
    }
    assert old(a[..n])[..n] == old(a[..n]);
  }

  // ---------------------------------------------------------------- the device record

  datatype Keepalive = Keepalive(
    online: bool, missedPings: nat, retryCount: nat,
    lastSeen: int, lastProbe: int, nextProbe: int,
    keepaliveInterval: int64, suppressUntil: int, history: seq<int>)

  const UNKNOWN := Keepalive(false, 0, 0, 0, 0, 0, 0, 0, [])

  datatype Emission = Online | Offline | Nothing

  /** What both branches of a success do to the record before the online question is decided. */
  function Seen(c: Config, s: Keepalive, now: int): Keepalive
  {
    var interval := NextInterval(if s.online then s.keepaliveInterval else 0, KeepaliveMin(c), KeepaliveMax(c));
    s.(lastSeen := now, lastProbe := now, missedPings := 0, retryCount := 0,
       keepaliveInterval := interval, nextProbe := now + interval)
  }

  function Recorded(c: Config, history: seq<int>, now: int): seq<int>
  {
    Prune(history, now - Window(c)) + [now]
  }

  function Success(c: Config, s: Keepalive, now: int): (Keepalive, Emission)
  {
    var seen := Seen(c, s, now);
    if s.online then (seen, Nothing)
    else if s.suppressUntil > now then (seen, Nothing)
    else
      var history := Recorded(c, s.history, now);
      if IsUnstable(c, history, now)
      then (seen.(history := history, suppressUntil := now + ResumeDelay(c)), Nothing)
      else (seen.(history := history, suppressUntil := 0, online := true), Online)
  }

  function Failure(c: Config, s: Keepalive, now: int): (Keepalive, Emission)
  {
    if s.online && c.offlineThreshold > 0 && s.retryCount + 1 >= c.offlineThreshold
    then (s.(lastProbe := now, history := Recorded(c, s.history, now), online := false, missedPings := 0,
             retryCount := 0, keepaliveInterval := KeepaliveMin(c), nextProbe := now + KeepaliveMin(c)), Offline)
    else (s.(lastProbe := now, missedPings := s.missedPings + 1, retryCount := s.retryCount + 1,
             nextProbe := now + FastRetryInterval(c)), Nothing)
  }

  function Forced(s: Keepalive): (Keepalive, Emission)
  {
    if s.online then (s.(online := false, missedPings := 0), Offline) else (s, Nothing)
  }

  /** The record as the Go code has it; the history is a slice: a buffer and a length. */
  class LanDeviceState {
    var online: bool
    var missedPings: nat
    var retryCount: nat
    var lastSeen: int
    var lastProbe: int
    var nextProbe: int
    var keepaliveInterval: int64
    var suppressUntil: int
    var buffer: array<int>
    var length: nat

    ghost predicate Valid()
      reads this
    {
      length <= buffer.Length
    }

    ghost function View(): Keepalive
      requires Valid()
      reads this, buffer
    {
      Keepalive(online, missedPings, retryCount, lastSeen, lastProbe, nextProbe,
                keepaliveInterval, suppressUntil, buffer[..length])
    }

    constructor ()
      ensures Valid() && View() == UNKNOWN && fresh(buffer)
    {
      online, missedPings, retryCount := false, 0, 0;
      lastSeen, lastProbe, nextProbe := 0, 0, 0;
      keepaliveInterval, suppressUntil := 0, 0;
      buffer := new int[0];
      length := 0;
    }

    /** Prunes the history and appends `now`, growing the buffer when it is full. */
    method Record(c: Config, now: int)
      requires Valid()
      modifies this`buffer, this`length, buffer
      ensures Valid() && (buffer == old(buffer) || fresh(buffer))
      ensures buffer[..length] == Recorded(c, old(buffer[..length]), now)
    {
      length := PruneInPlace(buffer, length, now - Window(c));
      if length == buffer.Length {
        var kept := buffer[..];
        buffer := new int[2 * length + 1](i requires 0 <= i => if i < |kept| then kept[i] else 0);
        assert buffer[..length] == kept;
      }
      buffer[length] := now;
      length := length + 1;
    }
  
    /** Restarts the probe interval of a device that was offline, and doubles and clamps it otherwise. */
    method LengthenInterval(c: Config)
      modifies this`keepaliveInterval
      ensures keepaliveInterval ==
              NextInterval(if online then old(keepaliveInterval) else 0, KeepaliveMin(c), KeepaliveMax(c))
    {
      if keepaliveInterval <= 0 || !online {
        keepaliveInterval := KeepaliveMin(c);
      } else {
        keepaliveInterval := Wrap64(keepaliveInterval * 2);
        if keepaliveInterval < KeepaliveMin(c) {
          keepaliveInterval := KeepaliveMin(c);
        }
        var max := KeepaliveMax(c);
        if keepaliveInterval > max {
          keepaliveInterval := max;
        }
      }
    }

    method RecordPingSuccess(c: Config, now: int) returns (emitted: Emission)
      requires Valid()
      modifies this, buffer
      ensures Valid() && (buffer == old(buffer) || fresh(buffer))
      ensures (View(), emitted) == Success(c, old(View()), now)
    {
      hide NextInterval, KeepaliveMin, KeepaliveMax, Window, ResumeDelay, Threshold, Prune;
      lastSeen := now;
      lastProbe := lastSeen;
      missedPings := 0;
      retryCount := 0;
      LengthenInterval(c);
      nextProbe := now + keepaliveInterval;
      var alreadyOnline := online;
      if !alreadyOnline {
        if suppressUntil > now {
          return Nothing;
        }
        Record(c, now);
        if length >= Threshold(c) && now - buffer[0] <= Window(c) {
          suppressUntil := now + ResumeDelay(c);
          return Nothing;
        }
        suppressUntil := 0;
      }
      online := true;
      emitted := if alreadyOnline then Nothing else Online;
    }

    method RecordPingFailure(c: Config, now: int) returns (emitted: Emission)
      requires Valid()
      modifies this, buffer
      ensures Valid() && (buffer == old(buffer) || fresh(buffer))
      ensures (View(), emitted) == Failure(c, old(View()), now)
    {
      lastProbe := now;
      missedPings := missedPings + 1;
      retryCount := retryCount + 1;
      if online && c.offlineThreshold > 0 && retryCount >= c.offlineThreshold {
        Record(c, now);
        online := false;
        missedPings := 0;
        retryCount := 0;
        keepaliveInterval := KeepaliveMin(c);
        nextProbe := now + keepaliveInterval;
        return Offline;
      }
      nextProbe := now + FastRetryInterval(c);
      emitted := Nothing;
    }

    /** What marking all devices offline does to one of them. */
    method ForceOffline() returns (emitted: Emission)
      requires Valid()
      modifies this`online, this`missedPings
      ensures Valid() && (View(), emitted) == Forced(old(View()))
    {
      if !online {
        return Nothing;
      }
      online := false;
      missedPings := 0;
      emitted := Offline;
    }
  }
}
