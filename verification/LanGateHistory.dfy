/**
  What the control gate comes to after any run, from the events alone (lan.go:269-286, 538-567, 679-784,
  1251-1266): which ballots count, when LAN control is on, whether the runtime and its listener
  run, which devices are online, and when listeners are told.
*/
module LanGateHistory {
  import opened Wrappers
  import opened LanGate

  /** The last ballot cast under a key; a vote without a key is no ballot. */
  function Ballot(events: seq<Event>, key: string): Option<bool>
  {
    if events == [] then None
    else
      match events[|events| - 1]
      case Cast(k, vote, _) =>
        if k == key && k != "" then Some(vote) else Ballot(events[..|events| - 1], key)
      case _ => Ballot(events[..|events| - 1], key)
  }

  ghost predicate SomeInFavour(events: seq<Event>)
  {
    exists key :: Ballot(events, key) == Some(true)
  }

  /** A start enables, a close disables, and a vote enables exactly when some ballot is in favour. */
  ghost predicate EnabledBy(events: seq<Event>)
  {
    events == [] ||
    match events[|events| - 1]
    case Start(_) => true
    case Close => false
    case Cast(_, _, _) => SomeInFavour(events)
    case _ => EnabledBy(events[..|events| - 1])
  }

  predicate GatewayBy(events: seq<Event>)
  {
    events != [] &&
    match events[|events| - 1]
    case Gateway(present, _) => present
    case _ => GatewayBy(events[..|events| - 1])
  }

  ghost predicate Open(events: seq<Event>)
  {
    EnabledBy(events) && !GatewayBy(events)
  }

  /** Whether the last event settles the runtime: a start, a close, a vote, or a gateway that comes or goes. */
  predicate Settles(events: seq<Event>)
    requires events != []
  {
    match events[|events| - 1]
    case Start(_) => true
    case Close => true
    case Cast(_, _, _) => true
    case Gateway(present, _) => present != GatewayBy(events[..|events| - 1])
    case _ => false
  }

  function ListenerOf(e: Event): Listener
  {
    match e
    case Start(l) => l
    case Cast(_, _, l) => l
    case Gateway(_, l) => l
    case _ => NoListener
  }

  /** The runtime runs from an event that settles it behind an open gate until one that finds the gate shut. */
  ghost predicate RunningBy(events: seq<Event>)
  {
    events != [] &&
    var older, e := events[..|events| - 1], events[|events| - 1];
    if !Settles(events) then RunningBy(older)
    else if e.Start? && GatewayBy(events) then RunningBy(older)
    else Open(events) && (RunningBy(older) || ListenerOf(e) != ListenFails)
  }

  /** Packets are listened to while a runtime runs that found a listener when it began. */
  ghost predicate ListeningBy(events: seq<Event>)
  {
    events != [] && RunningBy(events) &&
    var older := events[..|events| - 1];
    if RunningBy(older) then ListeningBy(older) else ListenerOf(events[|events| - 1]) == Listens
  }

  /** Whether a witness is heard after some events. */
  ghost predicate Heard(events: seq<Event>, w: Witness)
  {
    match w
    case Api => Open(events)
    case Scan => RunningBy(events)
    case Packet => ListeningBy(events)
  }

  /**
    A device is online if the last heard answer about it said so, and neither a shut gate nor its deletion
    came since.
  */
  ghost predicate OnlineBy(events: seq<Event>, did: Did)
  {
    events != [] &&
    var older, e := events[..|events| - 1], events[|events| - 1];
    match e
    case Answer(w, d, online) => if d == did && Heard(older, w) then online else OnlineBy(older, did)
    case Delete(d) => d != did && OnlineBy(older, did)
    case _ =>
      if Settles(events) && !(e.Start? && GatewayBy(events)) && !Open(events) then false else OnlineBy(older, did)
  }

  // ---------------------------------------------------------------- the fields follow the events

  lemma Snoc(events: seq<Event>)
    requires events != []
    ensures After(events) == Step(After(events[..|events| - 1]), events[|events| - 1])
  {
  }

  /** The vote map holds exactly the last ballot under each key. */
  lemma {:induction false} BallotsHeld(events: seq<Event>, key: string)
    ensures Lookup(After(events).votes, key) == Ballot(events, key)
  {
    if events != [] {
      BallotsHeld(events[..|events| - 1], key);
      VotesStep(After(events[..|events| - 1]), events[|events| - 1], key);
      hide Step, Lookup;
    }
  }

  function Lookup(votes: map<string, bool>, key: string): Option<bool>
  {
    if key in votes then Some(votes[key]) else None
  }

  lemma VotesStep(g: Gate, e: Event, key: string)
    ensures Lookup(Step(g, e).votes, key) ==
            if e.Cast? && e.key == key && key != "" then Some(e.vote) else Lookup(g.votes, key)
  {
  }

  lemma InFavourHeld(events: seq<Event>)
    ensures AnyVote(After(events).votes) <==> SomeInFavour(events)
  {
    forall key
      ensures Lookup(After(events).votes, key) == Ballot(events, key)
    {
      BallotsHeld(events, key);
    }
    var votes := After(events).votes;
    hide After, Ballot;
    if AnyVote(votes) {
      var key :| key in votes && votes[key];
      assert Ballot(events, key) == Some(true);
    }
    if SomeInFavour(events) {
      var key :| Ballot(events, key) == Some(true);
      assert key in votes && votes[key];
    }
  }

  lemma FlagsStep(g: Gate, e: Event)
    ensures var g' := Step(g, e);
            && g'.enabled == (match e
                              case Start(_) => true
                              case Close => false
                              case Cast(_, _, _) => AnyVote(g'.votes)
                              case _ => g.enabled)
            && g'.gatewayPresent == if e.Gateway? then e.present else g.gatewayPresent
  {
  }

  /** LAN control is on exactly as the starts, closes and ballots of the run say. */
  lemma {:induction false} FlagsHeld(events: seq<Event>)
    ensures After(events).enabled <==> EnabledBy(events)
    ensures After(events).gatewayPresent <==> GatewayBy(events)
  {
    if events != [] {
      FlagsHeld(events[..|events| - 1]);
      FlagsStep(After(events[..|events| - 1]), events[|events| - 1]);
      InFavourHeld(events);
      hide Step, SomeInFavour, AnyVote;
    }
  }

  /** After a vote LAN control is on exactly when some key's last ballot is in favour, this one included. */
  lemma VoteCounts(events: seq<Event>, key: string, vote: bool, l: Listener)
    ensures var more := events + [Cast(key, vote, l)];
            && (After(more).enabled <==> SomeInFavour(more))
            && (forall k :: Ballot(more, k) == if k == key && key != "" then Some(vote) else Ballot(events, k))
  {
    var more := events + [Cast(key, vote, l)];
    assert more[..|events|] == events && more[|more| - 1] == Cast(key, vote, l);
    FlagsHeld(more);
    hide After, SomeInFavour;
  }

  predicate SettlesFrom(g: Gate, e: Event)
  {
    match e
    case Start(_) => true
    case Close => true
    case Cast(_, _, _) => true
    case Gateway(present, _) => present != g.gatewayPresent
    case _ => false
  }

  lemma RuntimeStep(g: Gate, e: Event)
    requires Inv(g)
    ensures var g' := Step(g, e);
            var settles := SettlesFrom(g, e);
            && g'.running ==
                 (if !settles || (e.Start? && g.gatewayPresent) then g.running
                  else Allowed(g') && (g.running || ListenerOf(e) != ListenFails))
            && g'.listening ==
                 (if !settles || (e.Start? && g.gatewayPresent) then g.listening
                  else g'.running && if g.running then g.listening else ListenerOf(e) == Listens)
  {
  }

  lemma SettlesStep(events: seq<Event>)
    requires events != []
    ensures var e, g := events[|events| - 1], After(events[..|events| - 1]);
            Settles(events) <==> SettlesFrom(g, e)
  {
    FlagsHeld(events[..|events| - 1]);
    hide EnabledBy, After;
  }

  /** The runtime and the listener run exactly when the events say so. */
  lemma {:induction false} RuntimeHeld(events: seq<Event>)
    ensures After(events).running <==> RunningBy(events)
    ensures After(events).listening <==> ListeningBy(events)
  {
    if events != [] {
      var older := events[..|events| - 1];
      RuntimeHeld(older);
      RunInv(older);
      RuntimeStep(After(older), events[|events| - 1]);
      SettlesStep(events);
      FlagsHeld(events);
      FlagsHeld(older);
      if !events[|events| - 1].Gateway? {
        SameGateway(events);
      }
      hide Step, Settles, EnabledBy, GatewayBy;
    }
  }

  lemma SameGateway(events: seq<Event>)
    requires events != [] && !events[|events| - 1].Gateway?
    ensures GatewayBy(events) == GatewayBy(events[..|events| - 1])
  {
  }

  lemma WitnessHeard(events: seq<Event>, w: Witness)
    ensures CanWitness(After(events), w) <==> Heard(events, w)
  {
    RunInv(events);
    FlagsHeld(events);
    RuntimeHeld(events);
    hide After, EnabledBy, GatewayBy, RunningBy, ListeningBy;
  }

  predicate IsOnline(g: Gate, did: Did)
  {
    did in g.online && g.online[did]
  }

  lemma OnlineStep(g: Gate, e: Event, did: Did)
    ensures var g' := Step(g, e);
            IsOnline(g', did) <==>
              match e
              case Answer(w, d, online) => if d == did && CanWitness(g, w) then online else IsOnline(g, did)
              case Delete(d) => d != did && IsOnline(g, did)
              case _ =>
                !(SettlesFrom(g, e) && !(e.Start? && g.gatewayPresent) && !Allowed(g')) && IsOnline(g, did)
  {
  }

  /** Exactly the devices that the events have left online are online. */
  lemma {:induction false} OnlineHeld(events: seq<Event>, did: Did)
    ensures IsOnline(After(events), did) <==> OnlineBy(events, did)
  {
    if events != [] {
      var older, e := events[..|events| - 1], events[|events| - 1];
      OnlineHeld(older, did);
      OnlineStep(After(older), e, did);
      SettlesStep(events);
      FlagsHeld(events);
      FlagsHeld(older);
      if e.Answer? {
        WitnessHeard(older, e.w);
      }
      if !e.Gateway? {
        SameGateway(events);
      }
      hide Step, Settles, EnabledBy, GatewayBy, Heard, CanWitness, IsOnline;
    }
  }

  /**
    Listeners are told by a vote always, by anything else exactly when the gate opens or shuts; and they are
    told what it is.
  */
  lemma ToldWhen(events: seq<Event>)
    requires events != []
    ensures var older, e := events[..|events| - 1], events[|events| - 1];
            After(events).told == After(older).told +
              (if e.Cast? || (Open(older) != Open(events)) then [Open(events)] else [])
  {
    var older, e := events[..|events| - 1], events[|events| - 1];
    FlagsHeld(events);
    FlagsHeld(older);
    ToldStep(After(older), e);
    hide Step, EnabledBy, GatewayBy;
  }

  lemma ToldStep(g: Gate, e: Event)
    ensures var g' := Step(g, e);
            g'.told == g.told + (if e.Cast? || Allowed(g) != Allowed(g') then [Allowed(g')] else [])
  {
    assert g.told + [] == g.told;
  }
}
