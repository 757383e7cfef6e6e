/**
  The control gate under concurrency (lan.go:269-286, 538-567, 679-784): votes, Start, Close and changes
  of the central gateway change the flags in one locked section, the runtime in a later one, and
  tell listeners of LAN state with no lock held. Each section, and each call of a listener, is one step;
  any number of calls interleave freely.
*/
module LanGateRaces {
  import opened Wrappers

  /**
    What a call has left to do. `tell` is the value it will give to listeners once the runtime is done with. A
    call of Start tells them first, then looks for a gateway, then starts the runtime; a call of Close
    stops the runtime before it clears the flag.
  */
  datatype Pc =
    | Telling(value: bool, starting: bool)
    | Checking
    | Starting(tell: Option<bool>)
    | Stopping(tell: Option<bool>)
    | Closing
    | Disabling

  /** `told` is the last value a listener that was there from the start was given. */
  datatype Race = Race(enabled: bool, gatewayPresent: bool, running: bool, told: bool, calls: map<nat, Pc>)

  const INITIAL := Race(true, false, false, true, map[])

  /**
    The first section of a call, which for a vote tells only whether any vote is now in favour, and `Move`, the
    next step of a call under way, with whether listening for packets succeeds.
  */
  datatype Event =
    | Vote(id: nat, inFavour: bool)
    | Gateway(id: nat, present: bool)
    | Start(id: nat)
    | Close(id: nat)
    | Move(id: nat, listens: bool)

  predicate Allowed(w: Race)
  {
    w.enabled && !w.gatewayPresent
  }

  function Begin(w: Race, id: nat, pc: Pc): Race
  {
    w.(calls := w.calls[id := pc])
  }

  function End(w: Race, id: nat): Race
  {
    w.(calls := w.calls - {id})
  }

  function Tell(w: Race, id: nat, tell: Option<bool>): Race
  {
    match tell
    case None => End(w, id)
    case Some(value) => Begin(w, id, Telling(value, false))
  }

  /** What a change of the gate from `before` to `w` is worth telling. */
  function News(before: Race, w: Race): Option<bool>
  {
    if Allowed(before) == Allowed(w) then None else Some(Allowed(w))
  }

  function Moved(w: Race, id: nat, pc: Pc, listens: bool): Race
  {
    match pc
    case Telling(value, starting) =>
      var w' := w.(told := value);
      if starting then Begin(w', id, Checking) else End(w', id)
    case Checking => if w.gatewayPresent then End(w, id) else Begin(w, id, Starting(None))
    case Starting(tell) => Tell(if listens then w.(running := true) else w, id, tell)
    case Stopping(tell) => Tell(w.(running := false), id, tell)
    case Closing => Begin(w.(running := false), id, Disabling)
    case Disabling =>
      var w' := w.(enabled := false);
      Tell(w', id, News(w, w'))
  }

  /** The call goes on as the flags are after its first section. */
  function Decided(w: Race, id: nat, tell: Option<bool>): Race
  {
    Begin(w, id, if Allowed(w) then Starting(tell) else Stopping(tell))
  }

  /** The first section of a call, by a goroutine that has no call under way. */
  function Entered(w: Race, e: Event): Race
    requires !e.Move?
  {
    match e
    case Vote(id, inFavour) =>
      var w' := w.(enabled := inFavour);
      Decided(w', id, Some(Allowed(w')))
    case Gateway(id, present) =>
      var w' := w.(gatewayPresent := present);
      if w.gatewayPresent == present then w else Decided(w', id, News(w, w'))
    case Start(id) =>
      var w' := w.(enabled := true);
      Begin(w', id, if News(w, w') == None then Checking else Telling(Allowed(w'), true))
    case Close(id) => Begin(w, id, Closing)
  }

  /** Events that are not possible change nothing. */
  function Step(w: Race, e: Event): Race
  {
    if e.Move? then
      if e.id in w.calls then Moved(w, e.id, w.calls[e.id], e.listens) else w
    else if e.id in w.calls then w
    else Entered(w, e)
  }

  function Run(events: seq<Event>): Race
  {
    if events == [] then INITIAL else Step(Run(events[..|events| - 1]), events[|events| - 1])
  }

  lemma RunSnoc(events: seq<Event>, e: Event)
    ensures Run(events + [e]) == Step(Run(events), e)
  {
    assert (events + [e])[..|events|] == events;
  }

  lemma OthersStay(w: Race, e: Event)
    ensures forall id :: id in w.calls && id != e.id ==> id in Step(w, e).calls && Step(w, e).calls[id] == w.calls[id]
  {
  }

  // ---------------------------------------------------------------- the runtime behind a shut gate

  /** The runtime runs although the gate is shut. */
  predicate Escaped(w: Race)
  {
    w.running && !Allowed(w)
  }

  /**
    The two windows: a call that found the gate open starts the runtime after the gate has shut,
    or a call of Close clears the flag after some call has started the runtime again.
  */
  predicate Breaches(w: Race, e: Event)
  {
    && e.Move? && e.id in w.calls
    && match w.calls[e.id]
       case Starting(_) => e.listens && !Allowed(w)
       case Disabling => w.running
       case _ => false
  }

  /**
    The gate is asked to open: by a vote in favour or a start with no gateway, or by a gateway leaving an
    enabled client.
  */
  predicate Opens(w: Race, e: Event)
  {
    && e.id !in w.calls
    && match e
       case Vote(_, inFavour) => inFavour && !w.gatewayPresent
       case Gateway(_, present) => !present && w.enabled
       case Start(_) => !w.gatewayPresent
       case _ => false
  }

  predicate Stops(w: Race, e: Event)
  {
    e.Move? && e.id in w.calls && (w.calls[e.id].Stopping? || w.calls[e.id].Closing?)
  }

  predicate BreachesAt(events: seq<Event>, i: nat)
    requires i < |events|
  {
    Breaches(Run(events[..i]), events[i])
  }

  predicate MendsAt(events: seq<Event>, j: nat)
    requires j < |events|
  {
    Opens(Run(events[..j]), events[j]) || Stops(Run(events[..j]), events[j])
  }

  predicate Breached(events: seq<Event>)
  {
    exists i :: 0 <= i < |events| && BreachesAt(events, i) && forall j :: i < j < |events| ==> !MendsAt(events, j)
  }

  lemma BreachedSnoc(events: seq<Event>, e: Event)
    ensures Breached(events + [e]) <==>
            Breaches(Run(events), e) ||
            (Breached(events) && !Opens(Run(events), e) && !Stops(Run(events), e))
  {
    var more := events + [e];
    assert more[..|events|] == events;
    assert BreachesAt(more, |events|) == Breaches(Run(events), e);
    assert MendsAt(more, |events|) == (Opens(Run(events), e) || Stops(Run(events), e));
    SameHistory(events, e);
    hide BreachesAt, MendsAt;
    if Breached(events) && !MendsAt(more, |events|) {
      var i :| 0 <= i < |events| && BreachesAt(events, i) && forall j :: i < j < |events| ==> !MendsAt(events, j);
      assert BreachesAt(more, i);
    }
  }

  lemma SameHistory(events: seq<Event>, e: Event)
    ensures forall i :: 0 <= i < |events| ==>
              BreachesAt(events + [e], i) == BreachesAt(events, i) && MendsAt(events + [e], i) == MendsAt(events, i)
  {
    forall i | 0 <= i < |events|
      ensures (events + [e])[..i] == events[..i]
    {
    }
    hide Run, Breaches, Opens, Stops;
  }

  /** A call that will still stop the runtime. */
  predicate WillStop(w: Race)
  {
    exists id :: id in w.calls && (w.calls[id].Stopping? || w.calls[id].Closing?)
  }

  /** What each step does to an escaped runtime. */
  lemma StepEscapes(w: Race, e: Event)
    ensures Breaches(w, e) ==> Escaped(Step(w, e))
    ensures Escaped(w) && !Opens(w, e) && !Stops(w, e) ==> Escaped(Step(w, e))
    ensures Opens(w, e) || Stops(w, e) ==> !Escaped(Step(w, e))
  {
  }

  /**
    A step leaves the runtime running behind a shut gate, with no stop under way, only if it was so before or
    it breaches.
  */
  lemma StepKeeps(w: Race, e: Event)
    requires Escaped(Step(w, e)) && !WillStop(Step(w, e))
    ensures (Escaped(w) && !WillStop(w)) || Breaches(w, e)
  {
    var w' := Step(w, e);
    assert e.id in w'.calls ==> !w'.calls[e.id].Stopping? && !w'.calls[e.id].Closing?;
    if WillStop(w) {
      OthersStay(w, e);
    }
  }

  lemma {:induction false} BreachedBounds(events: seq<Event>)
    ensures Breached(events) ==> Escaped(Run(events))
    ensures Escaped(Run(events)) && !WillStop(Run(events)) ==> Breached(events)
  {
    if events != [] {
      var front, e := events[..|events| - 1], events[|events| - 1];
      assert events == front + [e];
      BreachedBounds(front);
      BreachedSnoc(front, e);
      StepEscapes(Run(front), e);
      if Escaped(Run(events)) && !WillStop(Run(events)) {
        StepKeeps(Run(front), e);
      }
      hide Breached, Escaped, WillStop, Breaches, Opens, Stops, Step;
    }
  }

  /**
    When no call is under way the runtime runs behind a shut gate exactly when one of the two windows was
    hit, and since then the gate has not been asked to open nor any call stopped the runtime.
  */
  lemma EscapedIff(events: seq<Event>)
    requires Run(events).calls == map[]
    ensures Escaped(Run(events)) <==> Breached(events)
  {
    BreachedBounds(events);
  }

  // ---------------------------------------------------------------- listeners told the wrong thing

  predicate Misinformed(w: Race)
  {
    w.told != Allowed(w)
  }

  /** A call tells listeners what the gate was in its first section, and the gate has changed since. */
  predicate TellsOldNews(w: Race, e: Event)
  {
    e.Move? && e.id in w.calls && w.calls[e.id].Telling? && w.calls[e.id].value != Allowed(w)
  }

  predicate TellsTruth(w: Race, e: Event)
  {
    e.Move? && e.id in w.calls && w.calls[e.id].Telling? && w.calls[e.id].value == Allowed(w)
  }

  /** The gate opens or shuts. */
  predicate Turns(w: Race, e: Event)
  {
    if e.Move? then e.id in w.calls && w.calls[e.id].Disabling? && Allowed(w)
    else
      && e.id !in w.calls
      && match e
         case Vote(_, inFavour) => !w.gatewayPresent && inFavour != w.enabled
         case Gateway(_, present) => w.enabled && present != w.gatewayPresent
         case Start(_) => !w.gatewayPresent && !w.enabled
         case Close(_) => false
  }

  predicate OldNewsAt(events: seq<Event>, i: nat)
    requires i < |events|
  {
    TellsOldNews(Run(events[..i]), events[i])
  }

  predicate CorrectsAt(events: seq<Event>, j: nat)
    requires j < |events|
  {
    TellsTruth(Run(events[..j]), events[j]) || Turns(Run(events[..j]), events[j])
  }

  predicate LastNewsOld(events: seq<Event>)
  {
    exists i :: 0 <= i < |events| && OldNewsAt(events, i) && forall j :: i < j < |events| ==> !CorrectsAt(events, j)
  }

  lemma LastNewsOldSnoc(events: seq<Event>, e: Event)
    ensures LastNewsOld(events + [e]) <==>
            TellsOldNews(Run(events), e) ||
            (LastNewsOld(events) && !TellsTruth(Run(events), e) && !Turns(Run(events), e))
  {
    var more := events + [e];
    assert more[..|events|] == events;
    assert OldNewsAt(more, |events|) == TellsOldNews(Run(events), e);
    assert CorrectsAt(more, |events|) == (TellsTruth(Run(events), e) || Turns(Run(events), e));
    SameNews(events, e);
    hide OldNewsAt, CorrectsAt;
    if LastNewsOld(events) && !CorrectsAt(more, |events|) {
      var i :| 0 <= i < |events| && OldNewsAt(events, i) && forall j :: i < j < |events| ==> !CorrectsAt(events, j);
      assert OldNewsAt(more, i);
    }
  }

  lemma SameNews(events: seq<Event>, e: Event)
    ensures forall i :: 0 <= i < |events| ==>
              OldNewsAt(events + [e], i) == OldNewsAt(events, i) && CorrectsAt(events + [e], i) == CorrectsAt(events, i)
  {
    forall i | 0 <= i < |events|
      ensures (events + [e])[..i] == events[..i]
    {
    }
    hide Run, TellsOldNews, TellsTruth, Turns;
  }

  function ToTell(pc: Pc): Option<bool>
  {
    match pc
    case Telling(value, _) => Some(value)
    case Starting(tell) => tell
    case Stopping(tell) => tell
    case _ => None
  }

  /** A call that will still tell listeners what is the case. */
  predicate WillInform(w: Race)
  {
    exists id :: id in w.calls && ToTell(w.calls[id]) == Some(Allowed(w))
  }

  lemma StepNews(w: Race, e: Event)
    ensures Turns(w, e) <==> Allowed(Step(w, e)) != Allowed(w)
    ensures TellsOldNews(w, e) ==> Misinformed(Step(w, e))
    ensures Misinformed(w) && !TellsTruth(w, e) && !Turns(w, e) ==> Misinformed(Step(w, e))
    ensures TellsTruth(w, e) || (Turns(w, e) && Misinformed(w)) ==> !Misinformed(Step(w, e))
  {
  }

  lemma TurningInforms(w: Race, e: Event)
    requires Turns(w, e)
    ensures WillInform(Step(w, e))
  {
    var w' := Step(w, e);
    assert e.id in w'.calls && ToTell(w'.calls[e.id]) == Some(Allowed(w'));
  }

  lemma StepInforms(w: Race, e: Event)
    requires Misinformed(Step(w, e)) && !WillInform(Step(w, e))
    ensures (Misinformed(w) && !WillInform(w) && !TellsTruth(w, e) && !Turns(w, e)) || TellsOldNews(w, e)
  {
    var w' := Step(w, e);
    if Turns(w, e) {
      TurningInforms(w, e);
    }
    StepNews(w, e);
    if WillInform(w) {
      OthersStay(w, e);
      assert e.id in w'.calls ==> ToTell(w'.calls[e.id]) != Some(Allowed(w'));
    }
  }

  lemma {:induction false} LastNewsBounds(events: seq<Event>)
    ensures LastNewsOld(events) ==> Misinformed(Run(events))
    ensures Misinformed(Run(events)) && !WillInform(Run(events)) ==> LastNewsOld(events)
  {
    if events != [] {
      var front, e := events[..|events| - 1], events[|events| - 1];
      assert events == front + [e];
      LastNewsBounds(front);
      LastNewsOldSnoc(front, e);
      StepNews(Run(front), e);
      if Misinformed(Run(events)) && !WillInform(Run(events)) {
        StepInforms(Run(front), e);
      }
      hide LastNewsOld, Misinformed, WillInform, TellsOldNews, TellsTruth, Turns, Step;
    }
  }

  /**
    When no call is under way the last thing listeners were told is wrong exactly when some call told them
    old news, and since then no call has told them the truth nor has the gate opened or shut.
  */
  lemma MisinformedIff(events: seq<Event>)
    requires Run(events).calls == map[]
    ensures Misinformed(Run(events)) <==> LastNewsOld(events)
  {
    LastNewsBounds(events);
  }

  // ---------------------------------------------------------------- the windows are hit

  /** A vote in favour, overtaken by a vote against, starts the runtime all the same and has the last word. */
  lemma OvertakenVote() returns (events: seq<Event>)
    ensures Run(events) == Race(false, false, true, true, map[])
  {
    RunSnoc([], Vote(0, true));
    events := [] + [Vote(0, true)];
    RunSnoc(events, Vote(1, false));
    events := events + [Vote(1, false)];
    assert Run(events) == Race(false, false, false, true, map[0 := Starting(Some(true)), 1 := Stopping(Some(false))]);
    RunSnoc(events, Move(1, true));
    events := events + [Move(1, true)];
    RunSnoc(events, Move(1, true));
    events := events + [Move(1, true)];
    assert Run(events) == Race(false, false, false, false, map[0 := Starting(Some(true))]);
    RunSnoc(events, Move(0, true));
    events := events + [Move(0, true)];
    RunSnoc(events, Move(0, true));
    events := events + [Move(0, true)];
  }

  /** A start that comes between the two halves of Close leaves the runtime running on a disabled client. */
  lemma StartInsideClose() returns (events: seq<Event>)
    ensures Run(events) == Race(false, false, true, false, map[])
  {
    RunSnoc([], Close(0));
    events := [] + [Close(0)];
    RunSnoc(events, Move(0, true));
    events := events + [Move(0, true)];
    assert Run(events) == Race(true, false, false, true, map[0 := Disabling]);
    RunSnoc(events, Start(1));
    events := events + [Start(1)];
    RunSnoc(events, Move(1, true));
    events := events + [Move(1, true)];
    assert Run(events) == Race(true, false, false, true, map[0 := Disabling, 1 := Starting(None)]);
    RunSnoc(events, Move(1, true));
    events := events + [Move(1, true)];
    assert Run(events) == Race(true, false, true, true, map[0 := Disabling]);
    RunSnoc(events, Move(0, true));
    events := events + [Move(0, true)];
    RunSnoc(events, Move(0, true));
    events := events + [Move(0, true)];
  }
}
