/** Whole runs of one LAN device (lan.go:989-1063, 1160-1188): how often it can be reported. */
module LanFlap {
  import opened LanKeepalive

  datatype Event = Pinged(now: nat) | Missed(now: nat) | Stopped(now: nat)

  datatype Report = Report(at: nat, kind: Emission, forced: bool)

  function Step(c: Config, s: Keepalive, e: Event): (Keepalive, Emission)
  {
    match e
    case Pinged(now) => Success(c, s, now)
    case Missed(now) => Failure(c, s, now)
    case Stopped(_) => Forced(s)
  }

  function After(c: Config, events: seq<Event>): Keepalive
  {
    if events == [] then UNKNOWN
    else Step(c, After(c, events[..|events| - 1]), events[|events| - 1]).0
  }

  /** Everything reported in a run, oldest first. */
  function Reports(c: Config, events: seq<Event>): seq<Report>
  {
    if events == [] then []
    else
      var n := |events| - 1;
      var emission := Step(c, After(c, events[..n]), events[n]).1;
      Reports(c, events[..n]) +
        (if emission == Nothing then [] else [Report(events[n].now, emission, events[n].Stopped?)])
  }

  ghost predicate Timed(events: seq<Event>)
  {
    forall i, j :: 0 <= i < j < |events| ==> events[i].now <= events[j].now
  }

  function LastTime(events: seq<Event>): nat
  {
    if events == [] then 0 else events[|events| - 1].now
  }

  // ---------------------------------------------------------------- counting

  function CountAfter(times: seq<int>, t: int): nat
  {
    if times == [] then 0
    else CountAfter(times[..|times| - 1], t) + (if times[|times| - 1] > t then 1 else 0)
  }

  /** Which reports to count. */
  datatype Sort = Onlines | Unforced | All

  predicate Counts(r: Report, sort: Sort)
  {
    match sort
    case Onlines => r.kind == Online
    case Unforced => !r.forced
    case All => true
  }

  /** Reports of a sort in the window (to - width, to]. */
  function CountReports(reports: seq<Report>, width: int, to: int, sort: Sort): nat
  {
    if reports == [] then 0
    else
      var r := reports[|reports| - 1];
      CountReports(reports[..|reports| - 1], width, to, sort) +
        (if to - width < r.at <= to && Counts(r, sort) then 1 else 0)
  }

  /** Reports after `from` that the history records: all but forced ones. */
  function CountRecorded(reports: seq<Report>, from: int): nat
  {
    if reports == [] then 0
    else
      var r := reports[|reports| - 1];
      CountRecorded(reports[..|reports| - 1], from) + (if from < r.at && !r.forced then 1 else 0)
  }

  lemma {:induction false} PruneCount(history: seq<int>, cutoff: int, t: int)
    requires t >= cutoff
    ensures CountAfter(Prune(history, cutoff), t) == CountAfter(history, t)
  {
    if history != [] {
      var n := |history| - 1;
      PruneCount(history[..n], cutoff, t);
      var kept := Prune(history[..n], cutoff);
      assert (kept + [history[n]])[..|kept|] == kept;
      assert kept + [] == kept;
    }
  }

  lemma {:induction false} AllLater(history: seq<int>, cutoff: int)
    ensures CountAfter(Prune(history, cutoff), cutoff) == |Prune(history, cutoff)|
    ensures forall i :: 0 <= i < |Prune(history, cutoff)| ==> Prune(history, cutoff)[i] > cutoff
  {
    if history != [] {
      var n := |history| - 1;
      AllLater(history[..n], cutoff);
      var kept := Prune(history[..n], cutoff);
      assert (kept + [history[n]])[..|kept|] == kept;
      assert kept + [] == kept;
    }
  }

  lemma RecordedCount(c: Config, history: seq<int>, now: int, t: int)
    requires t >= now - Window(c)
    ensures CountAfter(Recorded(c, history, now), t) == CountAfter(history, t) + (if now > t then 1 else 0)
    ensures t == now - Window(c) ==> CountAfter(Recorded(c, history, now), t) == |Recorded(c, history, now)|
  {
    hide CountAfter, Prune, Window;
    var kept := Prune(history, now - Window(c));
    PruneCount(history, now - Window(c), t);
    AllLater(history, now - Window(c));
    CountAfterSnoc(kept, now, t);
  }

  lemma CountAfterSnoc(times: seq<int>, last: int, t: int)
    ensures CountAfter(times + [last], t) == CountAfter(times, t) + (if last > t then 1 else 0)
  {
    assert (times + [last])[..|times|] == times;
  }

  ghost predicate Sorted(times: seq<int>)
  {
    forall i, j :: 0 <= i < j < |times| ==> times[i] <= times[j]
  }

  /** Pruning a sorted history keeps a suffix of it. */
  lemma {:induction false} PruneSuffix(history: seq<int>, cutoff: int) returns (k: nat)
    requires Sorted(history)
    ensures k <= |history| && Prune(history, cutoff) == history[k..]
  {
    if history == [] {
      k := 0;
    } else {
      var n := |history| - 1;
      k := PruneSuffix(history[..n], cutoff);
      if history[n] > cutoff {
        assert history[k..] == history[..n][k..] + [history[n]];
      } else {
        AllLater(history[..n], cutoff);
        k := n + 1;
      }
    }
  }

  /** After pruning, the time test of the Go code decides nothing: only the count does. */
  lemma TimeTestRedundant(c: Config, history: seq<int>, now: int)
    ensures IsUnstable(c, Recorded(c, history, now), now) <==> |Recorded(c, history, now)| >= Threshold(c)
  {
    AllLater(history, now - Window(c));
  }

  // ---------------------------------------------------------------- invariant of runs

  ghost predicate InPast(reports: seq<Report>, now: nat)
  {
    forall i :: 0 <= i < |reports| ==> reports[i].at <= now
  }

  /** No window that reaches back at most the configured span holds more recorded reports than the history has items. */
  ghost predicate Covered(c: Config, s: Keepalive, reports: seq<Report>, now: nat)
  {
    forall t: int :: t >= now - Window(c) ==> CountRecorded(reports, t) <= CountAfter(s.history, t)
  }

  ghost predicate OnlineLimited(c: Config, reports: seq<Report>)
  {
    forall t: int :: CountReports(reports, Window(c), t, Onlines) <= Threshold(c) - 1
  }

  lemma {:induction false} AtMostRecorded(reports: seq<Report>, width: int, to: int, sort: Sort)
    requires forall i :: 0 <= i < |reports| && Counts(reports[i], sort) ==> !reports[i].forced
    ensures CountReports(reports, width, to, sort) <= CountRecorded(reports, to - width)
  {
    if reports != [] {
      AtMostRecorded(reports[..|reports| - 1], width, to, sort);
    }
  }

  lemma {:induction false} RecordedMonotone(reports: seq<Report>, lo: int, hi: int)
    requires lo <= hi
    ensures CountRecorded(reports, hi) <= CountRecorded(reports, lo)
  {
    if reports != [] {
      RecordedMonotone(reports[..|reports| - 1], lo, hi);
    }
  }

  ghost predicate Kinds(reports: seq<Report>)
  {
    forall i :: 0 <= i < |reports| ==>
      reports[i].kind != Nothing && (reports[i].kind == Online ==> !reports[i].forced)
  }

  ghost predicate Inv(c: Config, s: Keepalive, reports: seq<Report>, now: nat)
  {
    && InPast(reports, now) && Kinds(reports)
    && Covered(c, s, reports, now)
    && OnlineLimited(c, reports)
  }

  lemma CountReportsSnoc(reports: seq<Report>, r: Report, width: int, to: int, sort: Sort)
    ensures CountReports(reports + [r], width, to, sort) ==
            CountReports(reports, width, to, sort) + (if to - width < r.at <= to && Counts(r, sort) then 1 else 0)
  {
    assert (reports + [r])[..|reports|] == reports;
  }

  lemma CountRecordedSnoc(reports: seq<Report>, r: Report, from: int)
    ensures CountRecorded(reports + [r], from) ==
            CountRecorded(reports, from) + (if from < r.at && !r.forced then 1 else 0)
  {
    assert (reports + [r])[..|reports|] == reports;
  }

  function Appended(reports: seq<Report>, e: Event, emission: Emission): seq<Report>
  {
    if emission == Nothing then reports else reports + [Report(e.now, emission, e.Stopped?)]
  }

  /** Whether a step adds to the history. */
  predicate Records(s: Keepalive, e: Event, emission: Emission)
  {
    (e.Pinged? && !s.online && s.suppressUntil <= e.now) || (e.Missed? && emission == Offline)
  }

  lemma StepHistory(c: Config, s: Keepalive, e: Event)
    ensures var (s', emission) := Step(c, s, e);
            && s'.history == (if Records(s, e, emission) then Recorded(c, s.history, e.now) else s.history)
            && (emission == Nothing || e.Stopped? || Records(s, e, emission))
  {
    hide Recorded;
  }

  lemma CoverKept(c: Config, s: Keepalive, reports: seq<Report>, before: nat, e: Event)
    requires Covered(c, s, reports, before) && before <= e.now
    ensures var (s', emission) := Step(c, s, e);
            Covered(c, s', Appended(reports, e, emission), e.now)
  {
    StepHistory(c, s, e);
    hide Step, CountRecorded, CountAfter, Recorded, Window, Records;
    var (s', emission) := Step(c, s, e);
    var reports' := Appended(reports, e, emission);
    forall t: int | t >= e.now - Window(c)
      ensures CountRecorded(reports', t) <= CountAfter(s'.history, t)
    {
      RecordedCount(c, s.history, e.now, t);
      CountRecordedSnoc(reports, Report(e.now, emission, e.Stopped?), t);
      assert CountRecorded(reports, t) <= CountAfter(s.history, t);
    }
  }

  /** A device is reported online only while its history, just pruned, is shorter than the threshold. */
  lemma OnlineHistoryShort(c: Config, s: Keepalive, reports: seq<Report>, before: nat, e: Event)
    requires Covered(c, s, reports, before) && before <= e.now
    requires Step(c, s, e).1 == Online
    ensures var reports' := Appended(reports, e, Online);
            CountRecorded(reports', e.now - Window(c)) <= Threshold(c) - 1
  {
    hide CountRecorded, CountAfter, Recorded, Window, Threshold, IsUnstable, Seen;
    CoverKept(c, s, reports, before, e);
    TimeTestRedundant(c, s.history, e.now);
    RecordedCount(c, s.history, e.now, e.now - Window(c));
  }

  /** A report of another kind is not counted among the online ones. */
  lemma OtherLimited(c: Config, reports: seq<Report>, r: Report)
    requires OnlineLimited(c, reports) && r.kind != Online
    ensures OnlineLimited(c, reports + [r])
  {
    hide CountReports, Window, Threshold;
    forall t: int
      ensures CountReports(reports + [r], Window(c), t, Onlines) <= Threshold(c) - 1
    {
      assert CountReports(reports, Window(c), t, Onlines) <= Threshold(c) - 1;
      CountReportsSnoc(reports, r, Window(c), t, Onlines);
    }
  }

  /** An online report stays within the limit when few have been recorded in the window that it ends. */
  lemma OnlineStillLimited(c: Config, reports: seq<Report>, r: Report)
    requires OnlineLimited(c, reports) && Kinds(reports + [r])
    requires CountRecorded(reports + [r], r.at - Window(c)) <= Threshold(c) - 1
    ensures OnlineLimited(c, reports + [r])
  {
    hide CountReports, CountRecorded, Window, Threshold;
    forall t: int
      ensures CountReports(reports + [r], Window(c), t, Onlines) <= Threshold(c) - 1
    {
      assert CountReports(reports, Window(c), t, Onlines) <= Threshold(c) - 1;
      CountReportsSnoc(reports, r, Window(c), t, Onlines);
      if r.at <= t {
        AtMostRecorded(reports + [r], Window(c), t, Onlines);
        RecordedMonotone(reports + [r], r.at - Window(c), t - Window(c));
      }
    }
  }

  lemma LimitKept(c: Config, s: Keepalive, reports: seq<Report>, before: nat, e: Event)
    requires Inv(c, s, reports, before) && before <= e.now
    ensures var (s', emission) := Step(c, s, e);
            OnlineLimited(c, Appended(reports, e, emission))
  {
    NeverForcedOnline(c, s, e);
    hide Step, CountReports, CountRecorded, OnlineLimited, Covered, InPast, Window, Threshold;
    var emission := Step(c, s, e).1;
    if emission == Online {
      OnlineHistoryShort(c, s, reports, before, e);
      OnlineStillLimited(c, reports, Report(e.now, emission, e.Stopped?));
    } else if emission == Offline {
      OtherLimited(c, reports, Report(e.now, emission, e.Stopped?));
    }
  }

  lemma NeverForcedOnline(c: Config, s: Keepalive, e: Event)
    ensures Step(c, s, e).1 == Online ==> !e.Stopped?
  {
    hide Success, Failure;
  }

  lemma StepKeeps(c: Config, s: Keepalive, reports: seq<Report>, before: nat, e: Event)
    requires Inv(c, s, reports, before) && before <= e.now
    ensures var (s', emission) := Step(c, s, e);
            Inv(c, s', Appended(reports, e, emission), e.now)
  {
    CoverKept(c, s, reports, before, e);
    LimitKept(c, s, reports, before, e);
    hide Covered, OnlineLimited;
  }

  lemma {:induction false} RunInv(c: Config, events: seq<Event>)
    requires Timed(events)
    ensures Inv(c, After(c, events), Reports(c, events), LastTime(events))
  {
    if events != [] {
      var n := |events| - 1;
      RunInv(c, events[..n]);
      hide Covered, OnlineLimited, Step;
      StepKeeps(c, After(c, events[..n]), Reports(c, events[..n]), LastTime(events[..n]), events[n]);
      assert Reports(c, events[..n]) + [] == Reports(c, events[..n]);
    }
  }

  /** In every run, every window holds at most one online report fewer than the threshold. */
  lemma OnlineReportsLimited(c: Config, events: seq<Event>, t: int)
    requires Timed(events)
    ensures CountReports(Reports(c, events), Window(c), t, Onlines) <= Threshold(c) - 1
  {
    RunInv(c, events);
  }

  // ---------------------------------------------------------------- all reports but forced ones

  ghost predicate TotalInv(c: Config, s: Keepalive, reports: seq<Report>)
  {
    && (s.online <==> reports != [] && reports[|reports| - 1].kind == Online)
    && (s.online ==> CountRecorded(reports, reports[|reports| - 1].at - Window(c)) <= Threshold(c) - 1)
    && (forall t: int :: CountReports(reports, Window(c), t, Unforced) <= Threshold(c))
  }

  /** What a step does to the online flag. */
  lemma StepOnline(c: Config, s: Keepalive, e: Event)
    ensures var (s', emission) := Step(c, s, e);
            match emission
            case Online => !s.online && s'.online
            case Offline => s.online && !s'.online
            case Nothing => s'.online == s.online
  {
    hide Recorded, IsUnstable;
  }

  /**
    One more report keeps the limit when fewer than the threshold were recorded since `since`, a full window
    before it.
  */
  lemma OneMoreReport(c: Config, reports: seq<Report>, r: Report, since: int, t: int)
    requires since <= r.at - Window(c) && CountRecorded(reports, since) <= Threshold(c) - 1
    requires CountReports(reports, Window(c), t, Unforced) <= Threshold(c)
    ensures CountReports(reports + [r], Window(c), t, Unforced) <= Threshold(c)
  {
    CountReportsSnoc(reports, r, Window(c), t, Unforced);
    if r.at <= t {
      AtMostRecorded(reports, Window(c), t, Unforced);
      RecordedMonotone(reports, since, t - Window(c));
    }
  }

  /** A full window before the next report, and fewer recorded since then than the threshold. */
  lemma Since(c: Config, s: Keepalive, reports: seq<Report>, before: nat, e: Event) returns (since: int)
    requires TotalInv(c, s, reports) && Covered(c, s, reports, before) && InPast(reports, before) && before <= e.now
    requires !e.Stopped? && Step(c, s, e).1 != Nothing
    ensures since <= e.now - Window(c) && CountRecorded(reports, since) <= Threshold(c) - 1
    ensures Step(c, s, e).1 == Online ==>
            CountRecorded(Appended(reports, e, Online), e.now - Window(c)) <= Threshold(c) - 1
  {
    if Step(c, s, e).1 == Online {
      OnlineHistoryShort(c, s, reports, before, e);
      CountRecordedSnoc(reports, Report(e.now, Online, false), e.now - Window(c));
      since := e.now - Window(c);
    } else {
      StepOnline(c, s, e);
      since := reports[|reports| - 1].at - Window(c);
    }
  }

  /** Forced reports are not counted. */
  lemma ForcedKept(c: Config, s: Keepalive, reports: seq<Report>, e: Event)
    requires TotalInv(c, s, reports) && e.Stopped?
    ensures var (s', emission) := Step(c, s, e);
            TotalInv(c, s', Appended(reports, e, emission))
  {
    var (s', emission) := Step(c, s, e);
    hide CountReports, CountRecorded, Window, Threshold;
    forall t: int
      ensures CountReports(Appended(reports, e, emission), Window(c), t, Unforced) <= Threshold(c)
    {
      assert CountReports(reports, Window(c), t, Unforced) <= Threshold(c);
      CountReportsSnoc(reports, Report(e.now, emission, true), Window(c), t, Unforced);
    }
  }

  /** One more unforced report, few having been recorded since a full window before it. */
  lemma ReportKept(c: Config, s: Keepalive, s': Keepalive, reports: seq<Report>, r: Report, since: int)
    requires TotalInv(c, s, reports) && !r.forced && (s'.online <==> r.kind == Online)
    requires since <= r.at - Window(c) && CountRecorded(reports, since) <= Threshold(c) - 1
    requires r.kind == Online ==> CountRecorded(reports + [r], r.at - Window(c)) <= Threshold(c) - 1
    ensures TotalInv(c, s', reports + [r])
  {
    hide CountReports, CountRecorded, Window, Threshold;
    forall t: int
      ensures CountReports(reports + [r], Window(c), t, Unforced) <= Threshold(c)
    {
      assert CountReports(reports, Window(c), t, Unforced) <= Threshold(c);
      OneMoreReport(c, reports, r, since, t);
    }
  }

  lemma SameTotal(c: Config, s: Keepalive, s': Keepalive, reports: seq<Report>)
    requires TotalInv(c, s, reports) && s'.online == s.online
    ensures TotalInv(c, s', reports)
  {
  }

  lemma TotalKept(c: Config, s: Keepalive, reports: seq<Report>, before: nat, e: Event)
    requires TotalInv(c, s, reports) && Covered(c, s, reports, before) && InPast(reports, before) && before <= e.now
    ensures var (s', emission) := Step(c, s, e);
            TotalInv(c, s', Appended(reports, e, emission))
  {
    hide Step, CountReports, CountRecorded, Covered, Window, Threshold, TotalInv, InPast;
    var (s', emission) := Step(c, s, e);
    StepOnline(c, s, e);
    if e.Stopped? {
      ForcedKept(c, s, reports, e);
    } else if emission == Nothing {
      SameTotal(c, s, s', reports);
    } else {
      var since := Since(c, s, reports, before, e);
      ReportKept(c, s, s', reports, Report(e.now, emission, false), since);
    }
  }

  lemma {:induction false} TotalRun(c: Config, events: seq<Event>)
    requires Timed(events)
    ensures TotalInv(c, After(c, events), Reports(c, events))
  {
    if events != [] {
      var n := |events| - 1;
      TotalRun(c, events[..n]);
      RunInv(c, events[..n]);
      hide Covered, OnlineLimited, Step, TotalInv;
      TotalKept(c, After(c, events[..n]), Reports(c, events[..n]), LastTime(events[..n]), events[n]);
      assert Reports(c, events[..n]) + [] == Reports(c, events[..n]);
    }
  }

  /** In every run, every window holds at most as many reports as the threshold, not counting forced offlines. */
  lemma UnforcedReportsLimited(c: Config, events: seq<Event>, t: int)
    requires Timed(events)
    ensures CountReports(Reports(c, events), Window(c), t, Unforced) <= Threshold(c)
  {
    TotalRun(c, events);
  }

  lemma {:induction false} NoneForced(c: Config, events: seq<Event>, t: int)
    requires forall i :: 0 <= i < |events| ==> !events[i].Stopped?
    ensures CountReports(Reports(c, events), Window(c), t, All) ==
            CountReports(Reports(c, events), Window(c), t, Unforced)
  {
    if events != [] {
      var n := |events| - 1;
      NoneForced(c, events[..n], t);
      var emission := Step(c, After(c, events[..n]), events[n]).1;
      var before := Reports(c, events[..n]);
      CountReportsSnoc(before, Report(events[n].now, emission, false), Window(c), t, All);
      CountReportsSnoc(before, Report(events[n].now, emission, false), Window(c), t, Unforced);
      assert before + [] == before;
      hide Step, CountReports, Window;
    }
  }

  /** Without forced offlines these are all reports. */
  lemma AllReportsLimited(c: Config, events: seq<Event>, t: int)
    requires Timed(events) && forall i :: 0 <= i < |events| ==> !events[i].Stopped?
    ensures CountReports(Reports(c, events), Window(c), t, All) <= Threshold(c)
  {
    UnforcedReportsLimited(c, events, t);
    NoneForced(c, events, t);
  }

  // ---------------------------------------------------------------- retries and intervals

  /** Failures since the last success. */
  function Trailing(events: seq<Event>): nat
  {
    if events == [] then 0
    else
      var n := |events| - 1;
      match events[n]
      case Pinged(_) => 0
      case Missed(_) => Trailing(events[..n]) + 1
      case Stopped(_) => Trailing(events[..n])
  }

  /** While a device is online its retry count is the number of failures since the last success, below the threshold. */
  lemma {:induction false} RetriesWhileOnline(c: Config, events: seq<Event>)
    ensures After(c, events).online ==>
              After(c, events).retryCount == After(c, events).missedPings == Trailing(events) &&
              (c.offlineThreshold > 0 ==> Trailing(events) < c.offlineThreshold)
  {
    if events != [] {
      RetriesWhileOnline(c, events[..|events| - 1]);
    }
  }

  /** Successes counted from the one that brought the device online; 0 while it is offline. */
  function Successes(c: Config, events: seq<Event>): nat
  {
    if events == [] || !After(c, events).online then 0
    else
      var n := |events| - 1;
      if events[n].Pinged? then Successes(c, events[..n]) + 1 else Successes(c, events[..n])
  }

  /** The interval after `n` updates from nothing. */
  function Iterated(min: int64, max: int64, n: nat): int64
  {
    if n == 0 then 0 else NextInterval(Iterated(min, max, n - 1), min, max)
  }

  lemma {:induction false} IntervalOfRun(c: Config, events: seq<Event>)
    ensures After(c, events).online ==>
              Successes(c, events) >= 1 &&
              After(c, events).keepaliveInterval == Iterated(KeepaliveMin(c), KeepaliveMax(c), Successes(c, events))
  {
    if events != [] {
      hide Recorded, IsUnstable, KeepaliveMin, KeepaliveMax, NextInterval;
      IntervalOfRun(c, events[..|events| - 1]);
    }
  }

  /** A missed ping reports a device offline exactly when it completes the configured number of misses in a row. */
  lemma OfflineIff(c: Config, events: seq<Event>, now: nat)
    ensures Failure(c, After(c, events), now).1 == Offline <==>
            After(c, events).online && c.offlineThreshold > 0 && Trailing(events) + 1 == c.offlineThreshold
  {
    RetriesWhileOnline(c, events);
  }

  /**
    An answered ping reports a device online exactly when it was offline, is not suppressed and its window has
    room.
  */
  lemma OnlineIff(c: Config, s: Keepalive, now: nat)
    ensures Success(c, s, now).1 == Online <==>
            !s.online && s.suppressUntil <= now && CountAfter(s.history, now - Window(c)) + 1 < Threshold(c)
  {
    hide CountAfter, Recorded, Window, Threshold, IsUnstable, Seen, NextInterval;
    UnstableIff(c, s.history, now);
  }

  /** A device flaps when one turn more than the window holds reaches the threshold. */
  lemma UnstableIff(c: Config, history: seq<int>, now: int)
    ensures IsUnstable(c, Recorded(c, history, now), now) <==>
            CountAfter(history, now - Window(c)) + 1 >= Threshold(c)
  {
    hide CountAfter, Recorded, Window, Threshold, IsUnstable;
    TimeTestRedundant(c, history, now);
    RecordedCount(c, history, now, now - Window(c));
  }

  lemma SeenOnline(c: Config, s: Keepalive, now: int)
    ensures Seen(c, s, now).online == s.online
  {
  }

  /** An offline device stays unreported, whatever answers, until its suppression has run out. */
  lemma {:induction false} SuppressionLasts(c: Config, events: seq<Event>, more: seq<Event>)
    requires !After(c, events).online
    requires forall i :: 0 <= i < |more| ==> more[i].now < After(c, events).suppressUntil
    ensures !After(c, events + more).online
    ensures After(c, events + more).suppressUntil == After(c, events).suppressUntil
    ensures Reports(c, events + more) == Reports(c, events)
    decreases |more|
  {
    if more == [] {
      assert events + more == events;
    } else {
      var n := |more| - 1;
      assert (events + more)[..|events + more| - 1] == events + more[..n];
      SuppressionLasts(c, events, more[..n]);
      assert Reports(c, events) + [] == Reports(c, events);
    }
  }

  /**
    When the device turned, oldest first: each success that found it offline and not suppressed, reported or
    not, and each miss that took it offline.
  */
  function Turns(c: Config, events: seq<Event>): seq<int>
  {
    if events == [] then []
    else
      var n := |events| - 1;
      var s := After(c, events[..n]);
      Turns(c, events[..n]) +
        (match events[n]
         case Pinged(now) => if !s.online && s.suppressUntil <= now then [now] else []
         case Missed(now) => if s.online && !After(c, events).online then [now] else []
         case Stopped(_) => [])
  }

  /** In every run the history counts exactly the turns of any stretch within the window. */
  lemma {:induction false} HistoryCounts(c: Config, events: seq<Event>, t: int)
    requires Timed(events) && t >= LastTime(events) - Window(c)
    ensures CountAfter(After(c, events).history, t) == CountAfter(Turns(c, events), t)
  {
    if events != [] {
      var n := |events| - 1;
      var s := After(c, events[..n]);
      assert LastTime(events[..n]) <= events[n].now;
      HistoryCounts(c, events[..n], t);
      StepHistory(c, s, events[n]);
      RecordedCount(c, s.history, events[n].now, t);
      CountAfterSnoc(Turns(c, events[..n]), events[n].now, t);
      TurnStep(c, s, events[n]);
      hide Step, Recorded, CountAfter, Window;
      assert Turns(c, events[..n]) + [] == Turns(c, events[..n]);
    }
  }

  lemma TurnStep(c: Config, s: Keepalive, e: Event)
    ensures var (s', emission) := Step(c, s, e);
            e.Missed? ==> (emission == Offline <==> s.online && !s'.online)
  {
    hide Recorded;
  }

  /**
    So a success reports a device online exactly when it was offline, is not suppressed and has turned less
    often than that.
  */
  lemma OnlineByTurns(c: Config, events: seq<Event>, now: nat)
    requires Timed(events) && now >= LastTime(events)
    ensures var s := After(c, events);
            Success(c, s, now).1 == Online <==>
              !s.online && s.suppressUntil <= now && CountAfter(Turns(c, events), now - Window(c)) + 1 < Threshold(c)
  {
    OnlineIff(c, After(c, events), now);
    HistoryCounts(c, events, now - Window(c));
    hide CountAfter, Turns, Window, Threshold;
  }

  /** How long a flapping device is held back: as configured, or five minutes. */
  function HoldBack(c: Config): int
  {
    if c.unstableResumeDelay > 0 then c.unstableResumeDelay else 300_000_000_000
  }

  /** A success that finds an offline, unsuppressed device with a full window: it flaps. */
  predicate Flaps(c: Config, events: seq<Event>, now: nat)
  {
    var s := After(c, events);
    !s.online && s.suppressUntil <= now && CountAfter(s.history, now - Window(c)) + 1 >= Threshold(c)
  }

  lemma FlapStep(c: Config, s: Keepalive, now: nat)
    requires !s.online && s.suppressUntil <= now && CountAfter(s.history, now - Window(c)) + 1 >= Threshold(c)
    ensures var (s', emission) := Success(c, s, now);
            !s'.online && s'.suppressUntil == now + HoldBack(c) && emission == Nothing
  {
    hide CountAfter, Recorded, Window, Threshold, IsUnstable, Seen, NextInterval;
    UnstableIff(c, s.history, now);
    SeenOnline(c, s, now);
  }

  lemma FlapSuppresses(c: Config, events: seq<Event>, now: nat)
    requires Flaps(c, events, now)
    ensures var more := events + [Pinged(now)];
            && !After(c, more).online && After(c, more).suppressUntil == now + HoldBack(c)
            && Reports(c, more) == Reports(c, events)
  {
    FlapStep(c, After(c, events), now);
    hide Success, CountAfter, Window, Threshold;
    assert (events + [Pinged(now)])[..|events|] == events;
    assert Reports(c, events) + [] == Reports(c, events);
  }

  /** A device that flaps is not reported for the whole delay, whatever happens. */
  lemma FlapHeldBack(c: Config, events: seq<Event>, now: nat, more: seq<Event>)
    requires Flaps(c, events, now)
    requires forall i :: 0 <= i < |more| ==> more[i].now < now + HoldBack(c)
    ensures Reports(c, events + [Pinged(now)] + more) == Reports(c, events)
  {
    FlapSuppresses(c, events, now);
    SuppressionLasts(c, events + [Pinged(now)], more);
  }

  /** And when the delay is over a success reports it as soon as its window has room again. */
  lemma FlapReleased(c: Config, events: seq<Event>, now: nat, more: seq<Event>, later: nat)
    requires Flaps(c, events, now)
    requires forall i :: 0 <= i < |more| ==> more[i].now < now + HoldBack(c)
    ensures var s := After(c, events + [Pinged(now)] + more);
            Success(c, s, later).1 == Online <==>
              later >= now + HoldBack(c) && CountAfter(s.history, later - Window(c)) + 1 < Threshold(c)
  {
    FlapSuppresses(c, events, now);
    SuppressionLasts(c, events + [Pinged(now)], more);
    OnlineIff(c, After(c, events + [Pinged(now)] + more), later);
  }

  /** A device reported online is not suppressed any more. */
  lemma OnlineNotSuppressed(c: Config, s: Keepalive, now: nat)
    requires Success(c, s, now).1 == Online
    ensures Success(c, s, now).0.suppressUntil == 0
  {
  }

  // ---------------------------------------------------------------- when a device is probed

  /** When the last success came. */
  function LastSuccess(events: seq<Event>): nat
  {
    if events == [] then 0
    else
      match events[|events| - 1]
      case Pinged(now) => now
      case _ => LastSuccess(events[..|events| - 1])
  }

  /** When the last ping, answered or not, came. */
  function LastPing(events: seq<Event>): nat
  {
    if events == [] then 0
    else
      match events[|events| - 1]
      case Pinged(now) => now
      case Missed(now) => now
      case Stopped(_) => LastPing(events[..|events| - 1])
  }

  /**
    How long after its last ping a device is probed again: after a success, the interval for that many successes in a
    row online, or the shortest while it is not reported online; after a miss, the fast retry, or
    the shortest interval when the miss took the device offline. A forced offline changes nothing.
  */
  function ProbeDelay(c: Config, events: seq<Event>): int
  {
    if events == [] then 0
    else
      var n := |events| - 1;
      match events[n]
      case Pinged(_) =>
        if After(c, events).online then Iterated(KeepaliveMin(c), KeepaliveMax(c), Successes(c,
          events)) else KeepaliveMin(c)
      case Missed(_) =>
        if After(c, events[..n]).online && !After(c, events).online then KeepaliveMin(c) else FastRetryInterval(c)
      case Stopped(_) => ProbeDelay(c, events[..n])
  }

  lemma ProbeStep(c: Config, s: Keepalive, e: Event)
    ensures var s' := Step(c, s, e).0;
            match e
            case Pinged(now) =>
              && s'.lastSeen == s'.lastProbe == now && s'.nextProbe == now + s'.keepaliveInterval
              && (!s'.online ==> s'.keepaliveInterval == KeepaliveMin(c))
            case Missed(now) =>
              && s'.lastSeen == s.lastSeen && s'.lastProbe == now
              && s'.nextProbe == now + (if s.online && !s'.online then KeepaliveMin(c) else FastRetryInterval(c))
            case Stopped(_) => s'.lastSeen == s.lastSeen && s'.lastProbe == s.lastProbe && s'.nextProbe == s.nextProbe
  {
    hide Recorded, IsUnstable;
  }

  /** In every run a device is next probed that long after its last ping. */
  lemma {:induction false} ProbedAgain(c: Config, events: seq<Event>)
    ensures var s := After(c, events);
            && s.lastSeen == LastSuccess(events) && s.lastProbe == LastPing(events)
            && s.nextProbe == LastPing(events) + ProbeDelay(c, events)
  {
    if events != [] {
      var n := |events| - 1;
      ProbedAgain(c, events[..n]);
      ProbeStep(c, After(c, events[..n]), events[n]);
      IntervalOfRun(c, events);
      hide Step, Iterated, Successes, KeepaliveMin, KeepaliveMax, FastRetryInterval;
    }
  }

  /** Misses since the last success, or since the device last went offline by misses or by force. */
  function MissesCounted(c: Config, events: seq<Event>): nat
  {
    if events == [] then 0
    else
      var n := |events| - 1;
      if events[n].Pinged? || (After(c, events[..n]).online && !After(c, events).online) then 0
      else MissesCounted(c, events[..n]) + (if events[n].Missed? then 1 else 0)
  }

  /** In every run, online or not, that many misses are on record. */
  lemma {:induction false} MissesOnRecord(c: Config, events: seq<Event>)
    ensures After(c, events).missedPings == MissesCounted(c, events)
  {
    if events != [] {
      MissesOnRecord(c, events[..|events| - 1]);
      hide Recorded, IsUnstable;
    }
  }

  // ---------------------------------------------------------------- settings

  /** A setting that is positive is used; the others have these values, in nanoseconds. */
  lemma UnsetSettings(c: Config)
    ensures Window(c) == if c.unstableWindow > 0 then c.unstableWindow else 120_000_000_000
    ensures Threshold(c) == if c.unstableThreshold > 0 then c.unstableThreshold else 10
    ensures c.keepaliveMin <= 0 && c.probeInterval <= 0 ==> KeepaliveMin(c) == 10_000_000_000
    ensures c.keepaliveMin <= 0 && c.probeInterval > 0 ==> KeepaliveMin(c) == c.probeInterval
    ensures c.keepaliveMin > 0 ==> KeepaliveMin(c) == c.keepaliveMin
    ensures c.keepaliveMax > 0 ==>
            KeepaliveMax(c) in {c.keepaliveMax, KeepaliveMin(c)} && KeepaliveMax(c) >= c.keepaliveMax
    ensures c.keepaliveMax <= 0 && KeepaliveMin(c) < 1_000_000_000_000_000_000 ==>
            KeepaliveMax(c) == 4 * KeepaliveMin(c)
    ensures c.broadcastMin <= 0 ==> BroadcastMin(c) == 5_000_000_000
    ensures c.broadcastMax <= 0 ==> BroadcastMax(c) == 45_000_000_000
    ensures c.broadcastMin > 0 ==> BroadcastMin(c) == c.broadcastMin
    ensures c.broadcastMax > 0 ==>
            BroadcastMax(c) == if c.broadcastMax < BroadcastMin(c) then BroadcastMin(c) else c.broadcastMax
    ensures c.fastRetryInterval > 0 ==> FastRetryInterval(c) == c.fastRetryInterval
    ensures c.fastRetryInterval <= 0 ==>
            FastRetryInterval(c) == if 0 < c.probeInterval < 5_000_000_000 then c.probeInterval else 5_000_000_000
  {
  }

  lemma RecordedSorted(c: Config, history: seq<int>, now: nat)
    requires Sorted(history) && forall i :: 0 <= i < |history| ==> history[i] <= now
    ensures Sorted(Recorded(c, history, now))
    ensures forall i :: 0 <= i < |Recorded(c, history, now)| ==> Recorded(c, history, now)[i] <= now
  {
    var k := PruneSuffix(history, now - Window(c));
    hide Prune, Window;
  }

  /** In every run the recorded history is sorted and lies in the past, so pruning keeps a suffix (PruneSuffix). */
  lemma {:induction false} HistorySorted(c: Config, events: seq<Event>)
    requires Timed(events)
    ensures var h := After(c, events).history;
            Sorted(h) && forall i :: 0 <= i < |h| ==> h[i] <= LastTime(events)
  {
    if events != [] {
      var n := |events| - 1;
      HistorySorted(c, events[..n]);
      var s := After(c, events[..n]);
      StepHistory(c, s, events[n]);
      assert LastTime(events[..n]) <= events[n].now;
      RecordedSorted(c, s.history, events[n].now);
      hide Step, Recorded, Sorted;
    }
  }
}
