/**
  The queue of properties waiting to be refreshed (client.go:1085-1212): batches of at most 150,
  three routes to ask, and a retry timer. A queue key is the text did|siid|piid, which
  determines the query (KeyInjective), so the queue is a set of queries.
*/
module PropertyQueue {
  import opened Decimal

  const BATCH := 150
  const MAX_RETRY := 3

  datatype Query = Query(did: string, siid: int, piid: int)

  // ---------------------------------------------------------------- keys

  function FormatInt(n: int): string
  {
    if n < 0 then "-" + FormatUint(-n) else FormatUint(n)
  }

  function PropertyKey(q: Query): string
  {
    q.did + "|" + FormatInt(q.siid) + "|" + FormatInt(q.piid)
  }

  lemma NoBar(n: int)
    ensures '|' !in FormatInt(n)
  {
    hide FormatUint;
  }

  lemma FormatIntInjective(m: int, n: int)
    requires FormatInt(m) == FormatInt(n)
    ensures m == n
  {
    SignAndSize(m);
    SignAndSize(n);
  }

  /** Sign and magnitude can be read off the text. */
  lemma SignAndSize(n: int)
    ensures var s := FormatInt(n);
            s != "" && (s[0] == '-' <==> n < 0) &&
            (if n < 0 then IsDigits(s[1..]) && Value(s[1..]) == -n else IsDigits(s) && Value(s) == n)
  {
    var a := if n < 0 then -n else n;
    ParseFormat(a);
    hide FormatUint, Value;
    assert ("-" + FormatUint(a))[1..] == FormatUint(a);
  }

  function LastBar(s: string): int
  {
    if s == "" then -1 else if s[|s| - 1] == '|' then |s| - 1 else LastBar(s[..|s| - 1])
  }

  lemma {:induction false} LastBarAt(x: string, s: string)
    requires '|' !in s
    ensures LastBar(x + "|" + s) == |x|
  {
    var all := x + "|" + s;
    if s != "" {
      assert all[..|all| - 1] == x + "|" + s[..|s| - 1];
      LastBarAt(x, s[..|s| - 1]);
    }
  }

  /** The text before and after the last bar is determined by the whole. */
  lemma LastPart(x: string, s: string, y: string, t: string)
    requires '|' !in s && '|' !in t && x + "|" + s == y + "|" + t
    ensures x == y && s == t
  {
    LastBarAt(x, s);
    LastBarAt(y, t);
    var all := x + "|" + s;
    assert all[..|x|] == x && all[..|y|] == y;
    assert all[|x| + 1..] == s && all[|y| + 1..] == t;
  }

  lemma KeyInjective(p: Query, q: Query)
    requires PropertyKey(p) == PropertyKey(q)
    ensures p == q
  {
    NoBar(p.siid);
    NoBar(p.piid);
    NoBar(q.siid);
    NoBar(q.piid);
    hide FormatInt;
    LastPart(p.did + "|" + FormatInt(p.siid), FormatInt(p.piid), q.did + "|" + FormatInt(q.siid), FormatInt(q.piid));
    LastPart(p.did, FormatInt(p.siid), q.did, FormatInt(q.siid));
    FormatIntInjective(p.siid, q.siid);
    FormatIntInjective(p.piid, q.piid);
  }

  /** Such a key is the identifier and the two numbers in decimal, with bars between. */
  lemma SomeKeys()
    ensures PropertyKey(Query("123", 2, 10)) == "123|2|10"
    ensures PropertyKey(Query("a", 0, -7)) == "a|0|-7"
  {
    assert FormatUint(1) == "1" && FormatUint(10) == FormatUint(1) + "0";
  }

  // ---------------------------------------------------------------- one cycle

  /**
    How the backends answer during one cycle: the cloud's result list, which may be an error and
    may name anything, and the queries the gateway and the LAN would answer if asked.
  */
  datatype Cloud = NoAnswer | Results(results: seq<Query>)
  datatype Answers = Answers(cloud: Cloud, gateway: set<Query>, lan: set<Query>)

  function Named(cloud: Cloud): set<Query>
  {
    match cloud
    case NoAnswer => {}
    case Results(rs) => set i | 0 <= i < |rs| :: rs[i]
  }

  /** At most one query of each device. */
  predicate OnePerDevice(s: set<Query>)
  {
    forall p, q :: p in s && q in s && p.did == q.did ==> p == q
  }

  /** One query of every device was asked for over one route; those in `answering` were answered. */
  ghost predicate Asked(items: set<Query>, answering: set<Query>, answered: set<Query>)
  {
    && answered <= items * answering && OnePerDevice(answered)
    && forall q :: q in items ==> exists p :: p in items && p.did == q.did && (p in answered || p !in answering)
  }

  /**
    What a cycle that sent `sent` takes as answered. Any cloud result counts as progress and ends the
    cycle; otherwise, in automatic mode, the gateway is asked and, if it answers nothing, the LAN.
  */
  ghost predicate Routed(auto: bool, a: Answers, sent: set<Query>, answered: set<Query>, progress: bool)
  {
    if a.cloud.Results? && a.cloud.results != [] then answered == sent * Named(a.cloud) && progress
    else
      && (progress <==> answered != {})
      && if !auto then answered == {}
         else || (answered != {} && Asked(sent, a.gateway, answered))
              || (Asked(sent, a.gateway, {}) && Asked(sent, a.lan, answered))
  }

  /** One cycle: how the backends would answer, the batch that was sent, and what came of it. */
  datatype Round = Round(a: Answers, sent: set<Query>, answered: set<Query>, progress: bool)

  /** What a cycle can do with a queue. */
  ghost predicate CycleOf(auto: bool, queue: set<Query>, r: Round)
  {
    && r.sent <= queue && |r.sent| == (if |queue| < BATCH then |queue| else BATCH)
    && r.answered <= r.sent
    && if queue == {} then r.answered == {} && !r.progress
       else Routed(auto, r.a, r.sent, r.answered, r.progress)
  }

  // ---------------------------------------------------------------- the retry machine

  /**
    `armed` is a set timer slot, `ticking` that the goroutine of that slot has only its timer to wait for, since its
    context is not cancelled, and `running` a runtime context.
  */
  datatype Refresh = Refresh(queue: set<Query>, armed: bool, ticking: bool, retry: nat, running: bool)

  const FRESH := Refresh({}, false, false, 0, false)

  /** Arming needs a runtime context; without one the request to arm is ignored. */
  function Schedule(s: Refresh): Refresh
  {
    if s.running then s.(armed := true, ticking := true) else s
  }

  function Cancel(s: Refresh): Refresh
  {
    s.(armed := false, ticking := false, retry := 0)
  }

  function Requested(s: Refresh, q: Query): Refresh
  {
    var s' := s.(queue := s.queue + {q});
    if s.armed then s' else Schedule(s')
  }

  /** The timer fires, its cycle answers `answered`, and the handler decides what comes next. */
  function Fired(s: Refresh, answered: set<Query>, progress: bool): Refresh
  {
    Decided(s.(armed := false, ticking := false, queue := s.queue - answered), progress)
  }

  /** Starting twice is starting once. */
  function Started(s: Refresh): Refresh
  {
    s.(running := true)
  }

  /** Closing takes the timer and the context but keeps the queue. */
  function Closed(s: Refresh): Refresh
  {
    s.(armed := false, ticking := false, retry := 0, running := false)
  }

  /** A failed start cancels the context, which ends the slot's goroutine, but leaves the slot set. */
  function RolledBack(s: Refresh): Refresh
  {
    s.(ticking := false, running := false)
  }

  /** The handler's decision, given what the cycle left. */
  function Decided(left: Refresh, progress: bool): Refresh
  {
    if progress then
      var reset := left.(retry := 0);
      if left.queue != {} then Schedule(reset) else reset
    else if left.queue == {} then Cancel(left)
    else if left.retry + 1 >= MAX_RETRY then Cancel(left.(queue := {}))
    else Schedule(left.(retry := left.retry + 1))
  }

  predicate HasDevice(s: set<Query>, did: string)
  {
    exists p :: p in s && p.did == did
  }

  /** The rest of the queue and what was not answered make up the queue without the answered keys. */
  lemma PutBack(queue: set<Query>, sent: set<Query>, answered: set<Query>, left: set<Query>)
    requires sent <= queue && answered <= sent && left == sent - answered
    ensures (queue - sent) + left == queue - answered
  {
  }

  lemma StruckOut(a: Answers, sent: set<Query>, left: set<Query>)
    requires a.cloud.Results? && left == sent - Named(a.cloud)
    ensures sent - left == sent * Named(a.cloud)
    ensures a.cloud.results == [] ==> left == sent
  {
  }

  class PropertyRefresher {
    const auto: bool
    const hasCloud: bool
    var queue: set<Query>
    var armed: bool
    ghost var ticking: bool
    var retry: nat
    var running: bool

    ghost function View(): Refresh
      reads this
    {
      Refresh(queue, armed, ticking, retry, running)
    }

    constructor (auto: bool, hasCloud: bool)
      ensures View() == FRESH
      ensures this.auto == auto && this.hasCloud == hasCloud
    {
      this.auto, this.hasCloud := auto, hasCloud;
      queue, armed, ticking, retry, running := {}, false, false, 0, false;
    }

    method Start()
      modifies this`running
      ensures View() == Started(old(View()))
    {
      running := true;
    }

    method Close()
      modifies this
      ensures View() == Closed(old(View()))
    {
      running := false;
      armed := false;
      ticking := false;
      retry := 0;
    }

    method RollbackStart()
      modifies this`running, this`ticking
      ensures View() == RolledBack(old(View()))
    {
      running := false;
      ticking := false;
    }

    method SchedulePropRefresh()
      modifies this`armed, this`ticking
      ensures View() == Schedule(old(View()))
    {
      if running {
        armed := true;
        ticking := true;
      }
    }

    method CancelPropRefresh()
      modifies this`armed, this`ticking, this`retry
      ensures View() == Cancel(old(View()))
    {
      armed := false;
      ticking := false;
      retry := 0;
    }

    method RequestRefreshProperty(known: bool, q: Query)
      modifies this`queue, this`armed, this`ticking
      ensures View() == if known then Requested(old(View()), q) else old(View())
    {
      if !known {
        return;
      }
      queue := queue + {q};
      var shouldSchedule := !armed;
      if shouldSchedule {
        SchedulePropRefresh();
      }
    }

    /** Takes at most one batch off the queue, in any order. */
    method TakeBatch() returns (active: set<Query>)
      modifies this`queue
      ensures active <= old(queue) && queue == old(queue) - active
      ensures |active| == if |old(queue)| < BATCH then |old(queue)| else BATCH
    {
      active := {};
      var todo := queue;
      var count := 0;
      var overflow := {};
      while todo != {}
        invariant todo <= queue && overflow <= queue && active <= queue
        invariant forall q :: q in queue ==>
          (q in active <==> q !in overflow && q !in todo) && !(q in overflow && q in todo)
        invariant count == |active| <= BATCH && (overflow != {} ==> count == BATCH)
        decreases |todo|
      {
        var q :| q in todo;
        todo := todo - {q};
        if count < BATCH {
          active := active + {q};
          count := count + 1;
        } else {
          overflow := overflow + {q};
        }
      }
      queue := overflow;
      assert overflow == old(queue) - active;
      assert |old(queue) - active| == |old(queue)| - |active|;
    }

    /** One query of each device, whichever comes first. */
    method FirstPerDevice(items: set<Query>) returns (selected: set<Query>)
      ensures selected <= items && OnePerDevice(selected)
      ensures forall q :: q in items ==> exists p :: p in selected && p.did == q.did
    {
      selected := {};
      var todo := items;
      while todo != {}
        invariant todo <= items && selected <= items && OnePerDevice(selected)
        invariant forall q :: q in items && q !in todo ==> HasDevice(selected, q.did)
        decreases |todo|
      {
        var q :| q in todo;
        todo := todo - {q};
        if !HasDevice(selected, q.did) {
          selected := selected + {q};
        }
        assert HasDevice(selected, q.did);
      }
    }

    /** Asks one local route for one query of each device. */
    method AskEach(active: set<Query>, answering: set<Query>) returns (answered: set<Query>)
      ensures Asked(active, answering, answered)
    {
      var selected := FirstPerDevice(active);
      var todo := selected;
      answered := {};
      while todo != {}
        invariant todo <= selected && answered <= selected
        invariant forall q :: q in selected && q !in todo ==> (q in answered <==> q in answering)
        invariant forall q :: q in todo ==> q !in answered
        decreases |todo|
      {
        var q :| q in todo;
        todo := todo - {q};
        if q in answering {
          answered := answered + {q};
        }
      }
      forall q | q in active
        ensures exists p :: p in active && p.did == q.did && (p in answered || p !in answering)
      {
        var p :| p in selected && p.did == q.did;
        assert p in active && (p in answered || p !in answering);
      }
    }

    /** What the cloud's result list leaves of the batch. */
    method Strike(active: set<Query>, results: seq<Query>) returns (left: set<Query>)
      ensures left == active - Named(Results(results))
    {
      left := active;
      for i := 0 to |results|
        invariant left <= active
        invariant forall q :: q in active ==> (q in left <==> q !in results[..i])
      {
        assert results[..i + 1] == results[..i] + [results[i]];
        left := left - {results[i]};
      }
      assert results[..|results|] == results;
    }

    /** The gateway first, and only if it answers nothing the LAN. */
    method AskRoutes(active: set<Query>, a: Answers) returns (answered: set<Query>)
      ensures answered <= active
      ensures || (answered != {} && Asked(active, a.gateway, answered))
              || (Asked(active, a.gateway, {}) && Asked(active, a.lan, answered))
    {
      answered := AskEach(active, a.gateway);
      if answered == {} {
        answered := AskEach(active, a.lan);
      }
    }

    /** Sends one batch over the routes; `left` is what nobody answered. */
    method SendBatch(active: set<Query>, a: Answers) returns (left: set<Query>, progress: bool)
      requires hasCloud || a.cloud == NoAnswer
      ensures left <= active && Routed(auto, a, active, active - left, progress)
    {
      hide Asked, Named;
      left := active;
      progress := false;
      if hasCloud && a.cloud.Results? {
        left := Strike(active, a.cloud.results);
        progress := |a.cloud.results| > 0;
        StruckOut(a, active, left);
      }
      if progress {
        return;
      }
      assert active - active == {};
      if auto {
        var answered := AskRoutes(active, a);
        left := active - answered;
        progress := answered != {};
        assert active - left == answered;
      }
    }

    method Cycle(a: Answers) returns (progress: bool, remaining: nat, ghost r: Round)
      requires hasCloud || a.cloud == NoAnswer
      modifies this`queue
      ensures r.a == a && r.progress == progress && CycleOf(auto, old(queue), r)
      ensures queue == old(queue) - r.answered && remaining == |queue|
    {
      if queue == {} {
        return false, 0, Round(a, {}, {}, false);
      }
      hide Routed;
      var active := TakeBatch();
      ghost var sent := active;
      active, progress := SendBatch(active, a);
      r := Round(a, sent, sent - active, progress);
      PutBack(old(queue), sent, r.answered, active);
      queue := queue + active;
      remaining := |queue|;
    }

    /** A caller's own refresh: one cycle, and an error when nothing came of it. */
    method RefreshQueuedProperties(a: Answers) returns (ok: bool, ghost r: Round)
      requires hasCloud || a.cloud == NoAnswer
      modifies this`queue
      ensures r.a == a && CycleOf(auto, old(queue), r) && queue == old(queue) - r.answered
      ensures ok <==> r.progress || old(queue) == {}
    {
      var progress, remaining;
      progress, remaining, r := Cycle(a);
      ok := progress || remaining == 0;
      NothingSentLeft(auto, old(queue), r);
    }

    method HandleQueuedPropertyRefresh(a: Answers) returns (ghost r: Round)
      requires hasCloud || a.cloud == NoAnswer
      modifies this
      ensures r.a == a && CycleOf(auto, old(queue), r)
      ensures View() == Fired(old(View()), r.answered, r.progress)
    {
      hide Routed;
      armed := false;
      ticking := false;
      var progress, remaining;
      progress, remaining, r := Cycle(a);
      Decide(progress, remaining);
    }

    method Decide(progress: bool, remaining: nat)
      requires remaining == |queue|
      modifies this
      ensures View() == Decided(old(View()), progress)
    {
      if progress {
        retry := 0;
        if remaining > 0 {
          SchedulePropRefresh();
        }
        return;
      }
      if remaining == 0 {
        CancelPropRefresh();
        return;
      }
      retry := retry + 1;
      if retry >= MAX_RETRY {
        queue := {};
        retry := 0;
        CancelPropRefresh();
        return;
      }
      SchedulePropRefresh();
    }
  }

  // ---------------------------------------------------------------- draining

  /** A cycle without progress has answered nothing, so it leaves the queue as it was. */
  lemma NothingSentLeft(auto: bool, queue: set<Query>, r: Round)
    requires CycleOf(auto, queue, r)
    ensures !r.progress ==> queue - r.answered == queue
  {
  }

  /** The cloud answers some key of the batch, or it answers nothing. */
  predicate AnswersBatch(cloud: Cloud, sent: set<Query>)
  {
    Named(cloud) != {} ==> sent * Named(cloud) != {}
  }

  lemma NamedSome(cloud: Cloud)
    ensures Named(cloud) != {} <==> cloud.Results? && cloud.results != []
  {
    if cloud.Results? && cloud.results != [] {
      assert cloud.results[0] in Named(cloud);
    }
  }

  /** Progress means that a key of the queue was answered, exactly when the cloud keeps to the batch. */
  lemma ProgressIff(auto: bool, queue: set<Query>, r: Round)
    requires queue != {} && CycleOf(auto, queue, r)
    ensures r.answered != {} ==> r.progress
    ensures (r.progress ==> r.answered != {}) <==> AnswersBatch(r.a.cloud, r.sent)
  {
    NamedSome(r.a.cloud);
  }

  /** A cycle sends 150 queries, or all there are. */
  lemma BatchSize(auto: bool, queue: set<Query>, r: Round)
    requires CycleOf(auto, queue, r)
    ensures |r.sent| == (if |queue| <= 150 then |queue| else 150)
    ensures |queue| <= 150 ==> r.sent == queue
  {
    hide Routed;
    assert |queue - r.sent| == |queue| - |r.sent|;
    assert |queue - r.sent| == 0 ==> queue - r.sent == {};
  }

  /** When the cloud names anything, or only the cloud is to be asked, it alone decides what is answered. */
  lemma CloudDecides(auto: bool, queue: set<Query>, r: Round)
    requires CycleOf(auto, queue, r) && (!auto || Named(r.a.cloud) != {})
    ensures r.answered == r.sent * Named(r.a.cloud)
    ensures r.progress <==> queue != {} && Named(r.a.cloud) != {}
  {
    NamedSome(r.a.cloud);
    if queue == {} {
      assert r.sent == {};
    } else if Named(r.a.cloud) == {} {
      assert r.sent * Named(r.a.cloud) == {};
    }
  }

  /** Every query of the device is among `s`. */
  predicate WholeDevice(sent: set<Query>, did: string, s: set<Query>)
  {
    HasDevice(sent, did) && forall q :: q in sent && q.did == did ==> q in s
  }

  /** The two ways in which the local routes answer a batch. */
  lemma LocalAnswers(queue: set<Query>, r: Round)
    requires CycleOf(true, queue, r) && queue != {} && Named(r.a.cloud) == {}
    ensures r.progress <==> r.answered != {}
    ensures || (r.answered != {} && Asked(r.sent, r.a.gateway, r.answered))
            || (Asked(r.sent, r.a.gateway, {}) && Asked(r.sent, r.a.lan, r.answered))
  {
    NamedSome(r.a.cloud);
    hide Asked, Named;
  }

  lemma AskedFacts(items: set<Query>, answering: set<Query>, answered: set<Query>, did: string)
    requires Asked(items, answering, answered)
    ensures answered <= items * answering && OnePerDevice(answered)
    ensures WholeDevice(items, did, answering) ==> answered != {}
  {
    if WholeDevice(items, did, answering) {
      var q :| q in items && q.did == did;
      var p :| p in items && p.did == q.did && (p in answered || p !in answering);
    }
  }

  /**
    When the cloud names nothing, in automatic mode: one query of a device is answered at most; a gateway that
    would answer all queries of some device decides, and one that would answer none leaves it to the LAN.
  */
  lemma LocalRoutesDecide(queue: set<Query>, r: Round, did: string)
    requires CycleOf(true, queue, r) && queue != {} && Named(r.a.cloud) == {}
    ensures OnePerDevice(r.answered) && (r.progress <==> r.answered != {})
    ensures WholeDevice(r.sent, did, r.a.gateway) ==> r.answered != {} && r.answered <= r.a.gateway
    ensures r.sent * r.a.gateway == {} ==> r.answered <= r.a.lan
    ensures r.sent * r.a.gateway == {} && WholeDevice(r.sent, did, r.a.lan) ==> r.answered != {}
  {
    LocalAnswers(queue, r);
    hide CycleOf, Asked, WholeDevice, OnePerDevice, Named;
    if r.answered != {} && Asked(r.sent, r.a.gateway, r.answered) {
      AskedFacts(r.sent, r.a.gateway, r.answered, did);
    } else {
      AskedFacts(r.sent, r.a.gateway, {}, did);
      AskedFacts(r.sent, r.a.lan, r.answered, did);
    }
  }

  /**
    With one query of each device in the batch this is exact: what the gateway answers, and if that is
    nothing, the LAN.
  */
  lemma LocalRoutesExact(queue: set<Query>, r: Round)
    requires CycleOf(true, queue, r) && queue != {} && Named(r.a.cloud) == {} && OnePerDevice(r.sent)
    ensures r.answered == if r.sent * r.a.gateway != {} then r.sent * r.a.gateway else r.sent * r.a.lan
  {
    LocalAnswers(queue, r);
    hide CycleOf, Named;
    if r.answered != {} && Asked(r.sent, r.a.gateway, r.answered) {
      AskedExact(r.sent, r.a.gateway, r.answered);
    } else {
      AskedExact(r.sent, r.a.gateway, {});
      AskedExact(r.sent, r.a.lan, r.answered);
    }
  }

  lemma AskedExact(items: set<Query>, answering: set<Query>, answered: set<Query>)
    requires Asked(items, answering, answered) && OnePerDevice(items)
    ensures answered == items * answering
  {
    forall q | q in items * answering
      ensures q in answered
    {
      var p :| p in items && p.did == q.did && (p in answered || p !in answering);
      assert p == q;
    }
  }

  predicate Less(a: nat, b: nat, a': nat, b': nat)
  {
    a' < a || (a' == a && b' < b)
  }

  /** One round makes (queue size, 3 - retry) fall lexicographically exactly when the cloud keeps to the batch. */
  lemma RoundFallsIff(auto: bool, s: Refresh, r: Round)
    requires s.queue != {} && s.retry < MAX_RETRY && CycleOf(auto, s.queue, r)
    ensures var s' := Fired(s, r.answered, r.progress);
            s'.retry < MAX_RETRY &&
            (Less(|s.queue|, MAX_RETRY - s.retry, |s'.queue|, MAX_RETRY - s'.retry) <==>
              AnswersBatch(r.a.cloud, r.sent))
  {
    hide CycleOf, AnswersBatch;
    ProgressIff(auto, s.queue, r);
    Answered(auto, s.queue, r);
    assert |s.queue| > 0;
  }

  /** The queue shrinks by the keys answered. */
  lemma Answered(auto: bool, queue: set<Query>, r: Round)
    requires CycleOf(auto, queue, r)
    ensures |queue - r.answered| == |queue| - |r.answered|
    ensures r.answered != {} ==> |r.answered| > 0
    ensures r.answered == {} ==> queue - r.answered == queue
  {
  }

  /** A run of timer cycles with no request in between. */
  function Drained(s: Refresh, rounds: seq<Round>): Refresh
  {
    if rounds == [] then s
    else
      var n := |rounds| - 1;
      Fired(Drained(s, rounds[..n]), rounds[n].answered, rounds[n].progress)
  }

  ghost predicate IsDrain(auto: bool, s: Refresh, rounds: seq<Round>)
  {
    forall i :: 0 <= i < |rounds| ==> CycleOf(auto, Drained(s, rounds[..i]).queue, rounds[i])
  }

  /** The rounds in which the cloud answered, but no key it was asked for. */
  function Stalls(rounds: seq<Round>): nat
  {
    if rounds == [] then 0
    else
      var n := |rounds| - 1;
      Stalls(rounds[..n]) + if AnswersBatch(rounds[n].a.cloud, rounds[n].sent) then 0 else 1
  }

  lemma DrainFront(auto: bool, s: Refresh, rounds: seq<Round>)
    requires rounds != [] && IsDrain(auto, s, rounds)
    ensures IsDrain(auto, s, rounds[..|rounds| - 1])
  {
    var n := |rounds| - 1;
    forall i | 0 <= i < n
      ensures CycleOf(auto, Drained(s, rounds[..n][..i]).queue, rounds[..n][i])
    {
      assert rounds[..n][..i] == rounds[..i];
    }
  }

  /** Three cycles for each key, and three more for each stall, bound every run that has not emptied the queue. */
  lemma {:induction false} DrainBound(auto: bool, s: Refresh, rounds: seq<Round>)
    requires s.retry < MAX_RETRY && IsDrain(auto, s, rounds)
    ensures var t := Drained(s, rounds);
            t.retry < MAX_RETRY &&
            (t.queue != {} ==>
               |rounds| + MAX_RETRY * |t.queue| - t.retry
                 <= MAX_RETRY * |s.queue| - s.retry + MAX_RETRY * Stalls(rounds))
  {
    if rounds != [] {
      var n := |rounds| - 1;
      DrainFront(auto, s, rounds);
      DrainBound(auto, s, rounds[..n]);
      var t := Drained(s, rounds[..n]);
      hide CycleOf, AnswersBatch, Decided;
      RoundStep(auto, t, rounds[n]);
    }
  }

  lemma RoundStep(auto: bool, t: Refresh, r: Round)
    requires t.retry < MAX_RETRY && CycleOf(auto, t.queue, r)
    ensures var t' := Fired(t, r.answered, r.progress);
            var stall := if AnswersBatch(r.a.cloud, r.sent) then 0 else 1;
            t'.retry < MAX_RETRY &&
            (t'.queue != {} ==>
               t.queue != {} &&
               MAX_RETRY * |t'.queue| - t'.retry <= MAX_RETRY * |t.queue| - t.retry - 1 + MAX_RETRY * stall)
  {
    hide CycleOf, AnswersBatch;
    Answered(auto, t.queue, r);
    if t.queue != {} {
      ProgressIff(auto, t.queue, r);
    }
  }

  /** After every run long enough for its stalls the queue is empty, whatever was answered. */
  lemma DrainsDespiteStalls(auto: bool, s: Refresh, rounds: seq<Round>)
    requires s.retry < MAX_RETRY && IsDrain(auto, s, rounds)
    requires |rounds| >= MAX_RETRY * (|s.queue| + Stalls(rounds))
    ensures Drained(s, rounds).queue == {}
  {
    DrainBound(auto, s, rounds);
    var t := Drained(s, rounds);
    assert t.queue != {} ==> |t.queue| >= 1;
  }

  /**
    When the cloud names only keys it was asked for, at most three timer cycles for each queued key empty the
    queue.
  */
  lemma DrainsInTime(auto: bool, s: Refresh, rounds: seq<Round>)
    requires s.retry < MAX_RETRY && IsDrain(auto, s, rounds)
    requires forall i :: 0 <= i < |rounds| ==> Named(rounds[i].a.cloud) <= rounds[i].sent
    requires |rounds| >= MAX_RETRY * |s.queue|
    ensures Drained(s, rounds).queue == {}
  {
    NoStalls(rounds);
    DrainsDespiteStalls(auto, s, rounds);
  }

  lemma {:induction false} NoStalls(rounds: seq<Round>)
    requires forall i :: 0 <= i < |rounds| ==> Named(rounds[i].a.cloud) <= rounds[i].sent
    ensures Stalls(rounds) == 0
  {
    if rounds != [] {
      var n := |rounds| - 1;
      NoStalls(rounds[..n]);
      var named := Named(rounds[n].a.cloud);
      assert rounds[n].sent * named == named;
    }
  }

  /** A cloud that answers a key nobody asked for. */
  function ForeignRound(f: Query, sent: set<Query>): Round
  {
    Round(Answers(Results([f]), {}, {}), sent, {}, true)
  }

  function ForeignRounds(f: Query, sent: set<Query>, n: nat): (rounds: seq<Round>)
    ensures |rounds| == n
  {
    if n == 0 then [] else ForeignRounds(f, sent, n - 1) + [ForeignRound(f, sent)]
  }

  /** Such answers can be given for ever, and then no number of cycles takes a key off the queue. */
  lemma {:induction false} ForeignAnswersStall(auto: bool, s: Refresh, f: Query, sent: set<Query>, n: nat)
    requires s.queue != {} && s.running && f !in s.queue
    requires sent <= s.queue && |sent| == if |s.queue| < BATCH then |s.queue| else BATCH
    ensures var rounds := ForeignRounds(f, sent, n);
            IsDrain(auto, s, rounds) && Stalls(rounds) == n &&
            Drained(s, rounds) == if n == 0 then s else s.(armed := true, ticking := true, retry := 0)
  {
    if n > 0 {
      hide CycleOf, AnswersBatch, IsDrain, Drained, Stalls, Named;
      ForeignAnswersStall(auto, s, f, sent, n - 1);
      ForeignCycle(auto, s.queue, f, sent);
      DrainSnoc(auto, s, ForeignRounds(f, sent, n - 1), ForeignRound(f, sent));
      Refired(s);
      if n > 1 {
        Refired(s.(armed := true, ticking := true, retry := 0));
      }
      hide Fired;
    }
  }

  lemma Refired(s: Refresh)
    requires s.queue != {} && s.running
    ensures Fired(s, {}, true) == s.(armed := true, ticking := true, retry := 0)
  {
    assert s.queue - {} == s.queue;
  }

  lemma DrainSnoc(auto: bool, s: Refresh, rounds: seq<Round>, r: Round)
    requires IsDrain(auto, s, rounds) && CycleOf(auto, Drained(s, rounds).queue, r)
    ensures IsDrain(auto, s, rounds + [r])
    ensures Drained(s, rounds + [r]) == Fired(Drained(s, rounds), r.answered, r.progress)
    ensures Stalls(rounds + [r]) == Stalls(rounds) + if AnswersBatch(r.a.cloud, r.sent) then 0 else 1
  {
    var more := rounds + [r];
    assert more[..|rounds|] == rounds;
    hide CycleOf, AnswersBatch, Fired;
    forall i | 0 <= i < |more|
      ensures CycleOf(auto, Drained(s, more[..i]).queue, more[i])
    {
      assert i < |rounds| ==> more[..i] == rounds[..i];
    }
  }

  lemma ForeignCycle(auto: bool, queue: set<Query>, f: Query, sent: set<Query>)
    requires queue != {} && f !in queue
    requires sent <= queue && |sent| == if |queue| < BATCH then |queue| else BATCH
    ensures CycleOf(auto, queue, ForeignRound(f, sent)) && !AnswersBatch(Results([f]), sent)
  {
    assert [f][0] in Named(Results([f]));
    assert sent * {f} == {};
  }

  // ---------------------------------------------------------------- the timer is armed while work waits

  /**
    Handlers run to completion. `Fire(true, ..)` is the timer of the channel in the slot, which may win
    against a cancelled context; `Fire(false, ..)` is a goroutine whose slot was taken or replaced but
    whose timer won the race against its closed stop channel.
  */
  datatype Event =
    | Start
    | Close
    | RollBack
    | Request(known: bool, q: Query)
    | Fire(own: bool, answered: set<Query>, progress: bool)
    | Manual(taken: set<Query>)

  function Step(s: Refresh, e: Event): Refresh
  {
    match e
    case Start => Started(s)
    case Close => Closed(s)
    case RollBack => RolledBack(s)
    case Request(known, q) => if known then Requested(s, q) else s
    case Fire(own, answered, progress) =>
      if !own then Decided(s.(queue := s.queue - answered), progress)
      else if s.armed then Fired(s, answered, progress)
      else s
    case Manual(taken) => s.(queue := s.queue - taken)
  }

  /** A run of a new client. */
  function Run(events: seq<Event>): Refresh
  {
    if events == [] then FRESH else Step(Run(events[..|events| - 1]), events[|events| - 1])
  }

  /** Whether a handler runs: a slot's own timer only while the slot is set. */
  predicate Handles(s: Refresh, e: Event)
  {
    e.Fire? && (e.own ==> s.armed)
  }

  /** Handlers in a row that made no progress on a queue that was not empty; the third one gives up. */
  function Failures(events: seq<Event>): nat
  {
    if events == [] then 0
    else
      var older, e := events[..|events| - 1], events[|events| - 1];
      if e.Close? then 0
      else if !Handles(Run(older), e) then Failures(older)
      else if e.progress || Run(older).queue <= e.answered || Failures(older) == 2 then 0
      else Failures(older) + 1
  }

  predicate GivesUp(events: seq<Event>)
    requires events != []
  {
    var older, e := events[..|events| - 1], events[|events| - 1];
    Handles(Run(older), e) && !e.progress && !(Run(older).queue <= e.answered) && Failures(older) == 2
  }

  /** A query that was requested and has since been neither answered, nor taken by a caller's refresh, nor given up. */
  predicate Wanted(events: seq<Event>, q: Query)
  {
    events != [] &&
    var older, e := events[..|events| - 1], events[|events| - 1];
    match e
    case Request(known, p) => (known && p == q) || Wanted(older, q)
    case Fire(_, answered, _) =>
      Wanted(older, q) && !(Handles(Run(older), e) && q in answered) && !GivesUp(events)
    case Manual(taken) => Wanted(older, q) && q !in taken
    case _ => Wanted(older, q)
  }

  lemma {:induction false} RetryHeld(events: seq<Event>)
    ensures Run(events).retry == Failures(events) <= 2
  {
    if events != [] {
      var older, e := events[..|events| - 1], events[|events| - 1];
      RetryHeld(older);
      if e.Fire? {
        NothingLeft(Run(older).queue, e.answered);
      }
    }
  }

  /**
    In every run exactly the wanted queries are queued: none is lost before its third failure in a row, none
    kept after.
  */
  lemma {:induction false} QueuedIff(events: seq<Event>, q: Query)
    ensures q in Run(events).queue <==> Wanted(events, q)
  {
    if events != [] {
      var older, e := events[..|events| - 1], events[|events| - 1];
      QueuedIff(older, q);
      RetryHeld(older);
      if e.Fire? {
        NothingLeft(Run(older).queue, e.answered);
      }
    }
  }

  predicate Stranded(s: Refresh)
  {
    s.running && s.queue != {} && !s.armed
  }

  /** Starting a stopped client that has keys waiting and no timer. */
  predicate FindsWork(events: seq<Event>, i: nat)
    requires i < |events|
  {
    var s := Run(events[..i]);
    events[i].Start? && !s.running && s.queue != {} && !s.armed
  }

  /** A known request, a stray timer, the end of the run of the client, or a refresh that empties the queue. */
  predicate Relieves(events: seq<Event>, j: nat)
    requires j < |events|
  {
    match events[j]
    case Request(known, _) => known
    case Fire(own, _, _) => !own
    case Close => true
    case RollBack => true
    case Manual(taken) => Run(events[..j]).queue <= taken
    case Start => false
  }

  predicate StartedOnWork(events: seq<Event>)
  {
    exists i :: 0 <= i < |events| && FindsWork(events, i) && forall j :: i < j < |events| ==> !Relieves(events, j)
  }

  lemma HistorySnoc(events: seq<Event>, e: Event, i: nat)
    requires i <= |events|
    ensures var more := events + [e];
            && more[..|events|] == events && more[..i] == events[..i]
            && (FindsWork(more, i) <==>
                  if i < |events| then FindsWork(events, i)
                  else e.Start? && !Run(events).running && Run(events).queue != {} && !Run(events).armed)
            && (i < |events| ==> (Relieves(more, i) <==> Relieves(events, i)))
  {
    assert (events + [e])[..|events|] == events;
    assert (events + [e])[..i] == events[..i];
    assert events[..|events|] == events;
    hide Run;
  }

  lemma StartedOnWorkSnoc(events: seq<Event>, e: Event)
    ensures StartedOnWork(events + [e]) <==>
            FindsWork(events + [e], |events|) || (StartedOnWork(events) && !Relieves(events + [e], |events|))
  {
    var more := events + [e];
    hide FindsWork, Relieves, Run;
    forall i: nat | i <= |events|
      ensures i < |events| ==>
              (FindsWork(more, i) <==> FindsWork(events, i)) && (Relieves(more, i) <==> Relieves(events, i))
    {
      HistorySnoc(events, e, i);
    }
    if StartedOnWork(events) && !Relieves(more, |events|) {
      var i :| 0 <= i < |events| && FindsWork(events, i) && forall j :: i < j < |events| ==> !Relieves(events, j);
      assert FindsWork(more, i);
    }
    if FindsWork(more, |events|) {
      assert StartedOnWork(more);
    }
  }

  /**
    A started client has keys waiting and no timer set exactly when some start found it so, and
    since then no known request, stray timer, stop or emptying refresh has come.
  */
  lemma {:induction false} StrandedIff(events: seq<Event>)
    ensures Stranded(Run(events)) <==> StartedOnWork(events)
  {
    if events != [] {
      var n := |events| - 1;
      var front := events[..n];
      assert events == front + [events[n]];
      StrandedIff(front);
      StartedOnWorkSnoc(front, events[n]);
      HistorySnoc(front, events[n], n);
      hide StartedOnWork;
      StepStrands(events);
    }
  }

  lemma NothingLeft(queue: set<Query>, taken: set<Query>)
    ensures queue - taken == {} <==> queue <= taken
  {
    if !(queue <= taken) {
      var q :| q in queue && q !in taken;
      assert q in queue - taken;
    }
  }

  /** A step ends with keys waiting and no timer exactly when it starts on them or does not relieve them. */
  lemma StepStrands(events: seq<Event>)
    requires events != []
    ensures var n := |events| - 1;
            Stranded(Run(events)) <==> FindsWork(events, n) || (Stranded(Run(events[..n])) && !Relieves(events, n))
  {
    var s := Run(events[..|events| - 1]);
    match events[|events| - 1] {
      case Manual(taken) => NothingLeft(s.queue, taken);
      case Request(known, q) => assert q in s.queue + {q};
      case _ =>
    }
  }

  /** Closing with work waiting and starting again is such a run. */
  lemma RestartStrands(q: Query)
    ensures Stranded(Run([Start] + [Request(true, q)] + [Close] + [Start]))
  {
    var events := [Start] + [Request(true, q)];
    assert [Start][..0] == [] && events[..1] == [Start] && (events + [Close])[..2] == events;
    assert (events + [Close] + [Start])[..3] == events + [Close];
    assert Run([Start]).running;
    assert q in Run(events).queue && q in Run(events + [Close]).queue;
  }

  // ---------------------------------------------------------------- a set slot whose goroutine is gone

  predicate DeadSlot(s: Refresh)
  {
    s.armed && !s.ticking
  }

  /** Whether the handler, run in a state whose cycle answers `answered`, takes the slot or sets it anew. */
  predicate TouchesSlot(s: Refresh, answered: set<Query>, progress: bool)
  {
    var left := s.queue - answered;
    if progress then left != {} && s.running else left == {} || s.retry + 1 >= MAX_RETRY || s.running
  }

  predicate ClearsDead(events: seq<Event>, j: nat)
    requires j < |events|
  {
    match events[j]
    case Close => true
    case Fire(own, answered, progress) => own || TouchesSlot(Run(events[..j]), answered, progress)
    case _ => false
  }

  predicate FailedStartKeptSlot(events: seq<Event>)
  {
    exists i :: 0 <= i < |events| && events[i].RollBack? && Run(events[..i]).armed &&
                forall j :: i < j < |events| ==> !ClearsDead(events, j)
  }

  lemma FailedStartSnoc(events: seq<Event>, e: Event)
    ensures FailedStartKeptSlot(events + [e]) <==>
            (e.RollBack? && Run(events).armed) || (FailedStartKeptSlot(events) && !ClearsDead(events + [e], |events|))
  {
    var more := events + [e];
    assert more[..|events|] == events;
    hide Run, TouchesSlot;
    forall i: nat | i < |events|
      ensures more[..i] == events[..i] && (ClearsDead(more, i) <==> ClearsDead(events, i))
    {
      assert more[..i] == events[..i];
    }
    if FailedStartKeptSlot(events) && !ClearsDead(more, |events|) {
      var i :| 0 <= i < |events| && events[i].RollBack? && Run(events[..i]).armed &&
               forall j :: i < j < |events| ==> !ClearsDead(events, j);
      assert more[i].RollBack? && Run(more[..i]).armed;
    }
    if e.RollBack? && Run(events).armed {
      assert more[|events|].RollBack? && Run(more[..|events|]).armed;
    }
  }

  /**
    The slot is set under a cancelled context exactly when a failed start left it so, and since then the client has
    not been closed, its own timer has not won, and no stray handler has taken the slot or set it anew.
  */
  lemma {:induction false} DeadSlotIff(events: seq<Event>)
    ensures DeadSlot(Run(events)) <==> FailedStartKeptSlot(events)
  {
    if events != [] {
      var n := |events| - 1;
      assert events == events[..n] + [events[n]];
      DeadSlotIff(events[..n]);
      FailedStartSnoc(events[..n], events[n]);
      hide FailedStartKeptSlot;
    }
  }

  /** On such a slot a started client queues requests without setting a timer for them. */
  lemma FailedStartStrands(q: Query)
    ensures var t := Run([Start] + [Request(true, q)] + [RollBack] + [Start] + [Request(true, q)]);
            t.running && q in t.queue && DeadSlot(t)
  {
    var events := [Start] + [Request(true, q)];
    assert [Start][..0] == [] && events[..1] == [Start] && (events + [RollBack])[..2] == events;
    assert (events + [RollBack] + [Start])[..3] == events + [RollBack];
    assert (events + [RollBack] + [Start] + [Request(true, q)])[..4] == events + [RollBack] + [Start];
    assert Run([Start]).running;
    assert Run(events).armed;
    assert DeadSlot(Run(events + [RollBack]));
  }
}
