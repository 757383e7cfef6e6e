/**
  The refresh queue of a started client under concurrency (client.go:1085-1212). Each locked section
  is one step; requests, timer handlers and callers' own refreshes interleave freely. Handlers
  look at the queue in one section and drop the timer in another, and this is what it costs.
*/
module RefreshRaces {
  import opened PropertyQueue

  /**
    Where a goroutine is. A handler takes a batch, sends it, returns with what it saw and decides;
    a caller's own refresh (`manual`) only takes and sends. `Scheduling` is about to set the timer slot.
  */
  datatype Pc =
    | Taking(manual: bool)
    | Sending(manual: bool, batch: set<Query>)
    | Returned(progress: bool, remaining: nat)
    | GivingUp
    | Cancelling
    | Scheduling

  datatype Race = Race(queue: set<Query>, armed: bool, retry: nat, threads: map<nat, Pc>)

  const QUIET := Race({}, false, 0, map[])

  /**
    `Insert` is the first section of a request. `Expire` starts a handler: the slot's own timer, or a
    stray one whose slot was taken or replaced. `Ask` is a caller's own refresh. `Move` runs the next section of
    a goroutine: the batch it
    takes, or the keys answered and whether that was progress, are given with it.
  */
  datatype Event =
    | Insert(id: nat, q: Query)
    | Expire(id: nat, own: bool)
    | Ask(id: nat)
    | Move(id: nat, keys: set<Query>, progress: bool)

  function Begin(w: Race, id: nat, pc: Pc): Race
  {
    w.(threads := w.threads[id := pc])
  }

  function End(w: Race, id: nat): Race
  {
    w.(threads := w.threads - {id})
  }

  function Moved(w: Race, id: nat, pc: Pc, keys: set<Query>, progress: bool): Race
  {
    match pc
    case Taking(manual) =>
      if w.queue == {} then (if manual then End(w, id) else Begin(w, id, Returned(false, 0)))
      else if keys <= w.queue && |keys| == (if |w.queue| < BATCH then |w.queue| else BATCH) then
        Begin(w.(queue := w.queue - keys), id, Sending(manual, keys))
      else w
    case Sending(manual, batch) =>
      var w' := w.(queue := w.queue + (batch - keys));
      if manual then End(w', id) else Begin(w', id, Returned(progress, |w'.queue|))
    case Returned(progress, remaining) =>
      if progress then
        (if remaining > 0 then Begin(w.(retry := 0), id, Scheduling) else End(w.(retry := 0), id))
      else if remaining == 0 then Begin(w, id, Cancelling)
      else Begin(w.(retry := w.retry + 1), id, if w.retry + 1 >= MAX_RETRY then GivingUp else Scheduling)
    case GivingUp => Begin(w.(queue := {}, retry := 0), id, Cancelling)
    case Cancelling => End(w.(armed := false, retry := 0), id)
    case Scheduling => End(w.(armed := true), id)
  }

  /** Events that are not possible change nothing. */
  function Step(w: Race, e: Event): Race
  {
    match e
    case Insert(id, q) =>
      if id in w.threads then w
      else
        var w' := w.(queue := w.queue + {q});
        if w.armed then w' else Begin(w', id, Scheduling)
    case Expire(id, own) =>
      if id in w.threads || (own && !w.armed) then w
      else Begin(if own then w.(armed := false) else w, id, Taking(false))
    case Ask(id) => if id in w.threads then w else Begin(w, id, Taking(true))
    case Move(id, keys, progress) => if id in w.threads then Moved(w, id, w.threads[id], keys, progress) else w
  }

  function Run(events: seq<Event>): Race
  {
    if events == [] then QUIET else Step(Run(events[..|events| - 1]), events[|events| - 1])
  }

  /** Keys wait and no timer is set. */
  predicate Bare(w: Race)
  {
    w.queue != {} && !w.armed
  }

  /**
    The two windows: a handler that saw the queue empty drops the timer of keys that have come since,
    or a caller's own refresh puts unanswered keys back after the timer has gone.
  */
  predicate Strips(w: Race, e: Event)
  {
    && e.Move? && e.id in w.threads
    && match w.threads[e.id]
       case Cancelling => w.queue != {}
       case Sending(manual, batch) => manual && !w.armed && w.queue + (batch - e.keys) != {}
       case _ => false
  }

  /** A goroutine sets the timer, gives the queue up, or takes all of it. */
  predicate Mends(w: Race, e: Event)
  {
    && e.Move? && e.id in w.threads
    && match w.threads[e.id]
       case Scheduling => true
       case GivingUp => true
       case Taking(_) => e.keys == w.queue && |w.queue| <= BATCH
       case _ => false
  }

  predicate StripsAt(events: seq<Event>, i: nat)
    requires i < |events|
  {
    Strips(Run(events[..i]), events[i])
  }

  predicate MendsAt(events: seq<Event>, j: nat)
    requires j < |events|
  {
    Mends(Run(events[..j]), events[j])
  }

  predicate Stripped(events: seq<Event>)
  {
    exists i :: 0 <= i < |events| && StripsAt(events, i) && forall j :: i < j < |events| ==> !MendsAt(events, j)
  }

  /** A goroutine that will look at the queue again or set the timer. */
  predicate Helps(pc: Pc)
  {
    match pc
    case Taking(manual) => !manual
    case Sending(manual, _) => !manual
    case Returned(_, remaining) => remaining > 0
    case GivingUp => true
    case Cancelling => false
    case Scheduling => true
  }

  predicate Helped(w: Race)
  {
    exists id :: id in w.threads && Helps(w.threads[id])
  }

  lemma StrippedSnoc(events: seq<Event>, e: Event)
    ensures Stripped(events + [e]) <==> Strips(Run(events), e) || (Stripped(events) && !Mends(Run(events), e))
  {
    var more := events + [e];
    assert more[..|events|] == events;
    assert StripsAt(more, |events|) == Strips(Run(events), e);
    assert MendsAt(more, |events|) == Mends(Run(events), e);
    SameHistory(events, e);
    hide StripsAt, MendsAt;
    if Stripped(events) && !MendsAt(more, |events|) {
      var i :| 0 <= i < |events| && StripsAt(events, i) && forall j :: i < j < |events| ==> !MendsAt(events, j);
      assert StripsAt(more, i);
    }
  }

  lemma SameHistory(events: seq<Event>, e: Event)
    ensures forall i :: 0 <= i < |events| ==>
              StripsAt(events + [e], i) == StripsAt(events, i) && MendsAt(events + [e], i) == MendsAt(events, i)
  {
    forall i | 0 <= i < |events|
      ensures (events + [e])[..i] == events[..i]
    {
    }
    hide Run, Strips, Mends;
  }

  /** What each step does to keys that wait without a timer. */
  lemma StepBares(w: Race, e: Event)
    ensures Strips(w, e) ==> Bare(Step(w, e))
    ensures Bare(w) && !Mends(w, e) ==> Bare(Step(w, e))
    ensures Mends(w, e) ==> !Bare(Step(w, e))
  {
    if e.Move? && e.id in w.threads {
      MoveBares(w, e.id, e.keys, e.progress);
    } else if e.Insert? {
      assert e.q in w.queue + {e.q};
    }
    hide Moved;
  }

  lemma MoveBares(w: Race, id: nat, keys: set<Query>, progress: bool)
    requires id in w.threads
    ensures var w', e := Moved(w, id, w.threads[id], keys, progress), Move(id, keys, progress);
            && (Strips(w, e) ==> Bare(w'))
            && (Bare(w) && !Mends(w, e) ==> Bare(w'))
            && (Mends(w, e) ==> !Bare(w'))
  {
    if w.threads[id].Taking? && keys <= w.queue {
      NothingLeft(w.queue, keys);
      if keys == w.queue {
        assert |keys| == |w.queue|;
      }
    }
  }

  /** A step leaves keys without a timer and without help only if they were so before, or it strips them. */
  lemma StepKeeps(w: Race, e: Event)
    requires Bare(Step(w, e)) && !Helped(Step(w, e))
    ensures (Bare(w) && !Helped(w)) || Strips(w, e)
  {
    var w' := Step(w, e);
    if Helped(w) {
      var id :| id in w.threads && Helps(w.threads[id]);
      assert id in w'.threads ==> !Helps(w'.threads[id]);
      assert e.Move? && e.id == id;
    }
    match e {
      case Insert(id, q) => assert id !in w.threads && !w.armed ==> Helps(w'.threads[id]);
      case Expire(id, own) => assert id !in w.threads && (own ==> w.armed) ==> Helps(w'.threads[id]);
      case Ask(id) =>
      case Move(id, keys, progress) =>
        if id in w.threads {
          MoveKeeps(w, id, keys, progress);
        }
    }
  }

  lemma MoveKeeps(w: Race, id: nat, keys: set<Query>, progress: bool)
    requires id in w.threads
    requires var w' := Moved(w, id, w.threads[id], keys, progress); Bare(w') && !Helped(w')
    ensures (Bare(w) && !Helped(w)) || Strips(w, Move(id, keys, progress))
  {
    var w' := Moved(w, id, w.threads[id], keys, progress);
    MoveEffect(w, id, keys, progress);
    OthersStay(w, id, keys, progress);
    hide Moved, Strips, Helps, Bare;
    if Helped(w) {
      var k :| k in w.threads && Helps(w.threads[k]);
      assert k != id ==> k in w'.threads && Helps(w'.threads[k]);
    }
  }

  lemma OthersStay(w: Race, id: nat, keys: set<Query>, progress: bool)
    requires id in w.threads
    ensures var w' := Moved(w, id, w.threads[id], keys, progress);
            forall k :: k in w.threads && k != id ==> k in w'.threads && w'.threads[k] == w.threads[k]
  {
  }

  /** What the section means for the queue, the timer and the goroutine's own help. */
  lemma MoveEffect(w: Race, id: nat, keys: set<Query>, progress: bool)
    requires id in w.threads
    ensures var w' := Moved(w, id, w.threads[id], keys, progress);
            Bare(w') && !(id in w'.threads && Helps(w'.threads[id])) ==>
              (Bare(w) && !Helps(w.threads[id])) || Strips(w, Move(id, keys, progress))
  {
    var w' := Moved(w, id, w.threads[id], keys, progress);
    assert w'.queue != {} ==> |w'.queue| > 0;
  }

  lemma {:induction false} StrippedBounds(events: seq<Event>)
    ensures Stripped(events) ==> Bare(Run(events))
    ensures Bare(Run(events)) && !Helped(Run(events)) ==> Stripped(events)
  {
    if events != [] {
      var front, e := events[..|events| - 1], events[|events| - 1];
      assert events == front + [e];
      StrippedBounds(front);
      StrippedSnoc(front, e);
      StepBares(Run(front), e);
      if Bare(Run(events)) && !Helped(Run(events)) {
        StepKeeps(Run(front), e);
      }
      hide Stripped, Bare, Helped, Strips, Mends, Step;
    }
  }

  /**
    When no goroutine is under way, keys wait without a timer exactly when one of the two windows was
    hit, and since then no goroutine has set the timer, given the queue up or taken all of it.
  */
  lemma StrippedIff(events: seq<Event>)
    requires Run(events).threads == map[]
    ensures Bare(Run(events)) <==> Stripped(events)
  {
    StrippedBounds(events);
  }

  // ---------------------------------------------------------------- both windows are hit

  lemma RunSnoc(events: seq<Event>, e: Event)
    ensures Run(events + [e]) == Step(Run(events), e)
  {
    assert (events + [e])[..|events|] == events;
  }

  /**
    A caller's refresh holds the only key while the timer's handler has found nothing and is about to drop the
    timer.
  */
  lemma HandlerAboutToCancel(q: Query) returns (events: seq<Event>)
    ensures Run(events) == Race({}, false, 0, map[1 := Sending(true, {q}), 2 := Cancelling])
  {
    RunSnoc([], Insert(0, q));
    events := [] + [Insert(0, q)];
    assert Run(events) == Race({q}, false, 0, map[0 := Scheduling]);
    RunSnoc(events, Move(0, {}, false));
    events := events + [Move(0, {}, false)];
    assert Run(events) == Race({q}, true, 0, map[]);
    RunSnoc(events, Ask(1));
    events := events + [Ask(1)];
    RunSnoc(events, Move(1, {q}, false));
    events := events + [Move(1, {q}, false)];
    assert Run(events) == Race({}, true, 0, map[1 := Sending(true, {q})]);
    RunSnoc(events, Expire(2, true));
    events := events + [Expire(2, true)];
    RunSnoc(events, Move(2, {}, false));
    events := events + [Move(2, {}, false)];
    assert Run(events) == Race({}, false, 0, map[1 := Sending(true, {q}), 2 := Returned(false, 0)]);
    RunSnoc(events, Move(2, {}, false));
    events := events + [Move(2, {}, false)];
  }

  /** A request that comes before the handler drops the timer loses its timer. */
  lemma LateRequestStripped(p: Query, q: Query) returns (events: seq<Event>)
    ensures Run(events) == Race({p}, false, 0, map[])
  {
    events := HandlerAboutToCancel(q);
    RunSnoc(events, Insert(3, p));
    events := events + [Insert(3, p)];
    RunSnoc(events, Move(3, {}, false));
    events := events + [Move(3, {}, false)];
    assert Run(events) == Race({p}, true, 0, map[1 := Sending(true, {q}), 2 := Cancelling]);
    RunSnoc(events, Move(2, {}, false));
    events := events + [Move(2, {}, false)];
    assert Run(events) == Race({p}, false, 0, map[1 := Sending(true, {q})]);
    RunSnoc(events, Move(1, {q}, true));
    events := events + [Move(1, {q}, true)];
  }

  /** So does a key that a caller's refresh puts back after that. */
  lemma PutBackStripped(q: Query) returns (events: seq<Event>)
    ensures Run(events) == Race({q}, false, 0, map[])
  {
    events := HandlerAboutToCancel(q);
    RunSnoc(events, Move(2, {}, false));
    events := events + [Move(2, {}, false)];
    assert Run(events) == Race({}, false, 0, map[1 := Sending(true, {q})]);
    RunSnoc(events, Move(1, {}, false));
    events := events + [Move(1, {}, false)];
  }
}
