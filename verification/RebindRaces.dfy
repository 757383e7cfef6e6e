/**
  One live subscription of the MIoT client under concurrency (client.go:445-536, 1367-1377, 1626-1668).
  Rebinding reads the record, closes its handle and clears it with no lock held, asks a backend, and
  stores source and handle under the lock; the subscription's own close holds the lock, and closing the
  client does not. Every read, write and call is one step; any number of them interleave freely.
*/
module RebindRaces {
  import opened Wrappers

  type Handle = nat

  /**
    Where a goroutine is. `Drop` steps end the subscription; `holds` says that they hold the lock, as the
    subscription's own close does; closing the client finds it only in the registry. Testing and loading the
    record are separate reads of it.
  */
  datatype Pc =
    | Comparing(source: string)
    | Testing(source: string)
    | Loading(source: string)
    | Closing(source: string, h: Handle)
    | Clearing(source: string)
    | Opening(source: string)
    | Storing(source: string, given: Option<Handle>)
    | DropTesting(holds: bool)
    | DropLoading(holds: bool)
    | DropClosing(holds: bool, h: Handle)

  /**
    `source` and `active` are the record, `live` that it is in the registry, `closes` how often each handle
    that a backend gave was closed, and `current` the device's push source. A method called on a cleared
    handle ends the program: `crashed`.
  */
  datatype Race = Race(
    source: string, active: Option<Handle>, live: bool, closes: seq<nat>,
    current: string, threads: map<nat, Pc>, crashed: bool)

  const SUBSCRIBED := Race("", None, true, [], "", map[], false)

  datatype Event =
    | Turn(current: string)
    | Rebind(id: nat)
    | Drop(id: nat, holds: bool)
    | Move(id: nat, gives: bool)

  predicate Holds(pc: Pc)
  {
    (pc.DropTesting? || pc.DropLoading? || pc.DropClosing?) && pc.holds
  }

  predicate Locked(w: Race)
  {
    exists id :: id in w.threads && Holds(w.threads[id])
  }

  function Begin(w: Race, id: nat, pc: Pc): Race
  {
    w.(threads := w.threads[id := pc])
  }

  function End(w: Race, id: nat): Race
  {
    w.(threads := w.threads - {id})
  }

  function CloseHandle(closes: seq<nat>, h: Handle): seq<nat>
  {
    if h < |closes| then closes[h := closes[h] + 1] else closes
  }

  function Moved(w: Race, id: nat, pc: Pc, gives: bool): Race
  {
    match pc
    case Comparing(source) => if w.source == source then End(w, id) else Begin(w, id, Testing(source))
    case Testing(source) => Begin(w, id, if w.active == None then Opening(source) else Loading(source))
    case Loading(source) =>
      if w.active == None then w.(crashed := true) else Begin(w, id, Closing(source, w.active.value))
    case Closing(source, h) => Begin(w.(closes := CloseHandle(w.closes, h)), id, Clearing(source))
    case Clearing(source) => Begin(w.(active := None), id, Opening(source))
    case Opening(source) =>
      if source != "" && gives then Begin(w.(closes := w.closes + [0]), id, Storing(source, Some(|w.closes|)))
      else Begin(w, id, Storing(source, None))
    case Storing(source, given) => if Locked(w) then w else End(w.(source := source, active := given), id)
    case DropTesting(holds) => if w.active == None then End(w, id) else Begin(w, id, DropLoading(holds))
    case DropLoading(holds) =>
      if w.active == None then w.(crashed := true) else Begin(w, id, DropClosing(holds, w.active.value))
    case DropClosing(_, h) => End(w.(closes := CloseHandle(w.closes, h)), id)
  }

  /** Events that are not possible change nothing, nor does any once the program has crashed. */
  function Step(w: Race, e: Event): Race
  {
    if w.crashed then w
    else if e.Move? then
      if e.id in w.threads then Moved(w, e.id, w.threads[e.id], e.gives) else w
    else if Locked(w) then w
    else
      match e
      case Turn(current) => w.(current := current)
      case Rebind(id) => if id in w.threads then w else Begin(w, id, Comparing(w.current))
      case Drop(id, holds) =>
        if id in w.threads || (!holds && !w.live) then w else Begin(w.(live := false), id, DropTesting(holds))
      case Move(_, _) => w
  }

  function Run(events: seq<Event>): Race
  {
    if events == [] then SUBSCRIBED else Step(Run(events[..|events| - 1]), events[|events| - 1])
  }

  lemma RunSnoc(events: seq<Event>, e: Event)
    ensures Run(events + [e]) == Step(Run(events), e)
  {
    assert (events + [e])[..|events|] == events;
  }

  /**
    The account of a subscription at rest: every handle closed once, but the active one of a live subscription
    not at all.
  */
  predicate Accounted(w: Race)
  {
    forall h :: 0 <= h < |w.closes| ==> w.closes[h] == if w.live && w.active == Some(h) then 0 else 1
  }

  // ---------------------------------------------------------------- what can be seen of a handle

  predicate ClosesHandle(pc: Pc, h: Handle)
  {
    (pc.Closing? || pc.DropClosing?) && pc.h == h
  }

  /** Goroutines that have loaded the handle and not closed it yet. */
  function Closers(w: Race, h: Handle): set<nat>
  {
    set id | id in w.threads && ClosesHandle(w.threads[id], h)
  }

  predicate Stores(pc: Pc, h: Handle)
  {
    pc.Storing? && pc.given == Some(h)
  }

  function Storers(w: Race, h: Handle): set<nat>
  {
    set id | id in w.threads && Stores(w.threads[id], h)
  }

  /** Someone has loaded the handle. */
  predicate Touched(w: Race, h: Handle)
  {
    h < |w.closes| && (w.closes[h] > 0 || Closers(w, h) != {})
  }

  // ---------------------------------------------------------------- the windows

  predicate Moves(w: Race, e: Event)
  {
    !w.crashed && e.Move? && e.id in w.threads
  }

  predicate Loads(w: Race, e: Event, h: Handle)
  {
    Moves(w, e) && (w.threads[e.id].Loading? || w.threads[e.id].DropLoading?) && w.active == Some(h)
  }

  /** The record is overwritten: cleared, or stored to with the lock free. */
  predicate Overwrites(w: Race, e: Event)
  {
    Moves(w, e) && (w.threads[e.id].Clearing? || (w.threads[e.id].Storing? && !Locked(w)))
  }

  /** The handle is loaded by one goroutine after another has loaded it. */
  predicate LoadsAgain(w: Race, e: Event, h: Handle)
  {
    Loads(w, e, h) && Touched(w, h)
  }

  /** The record is overwritten while it names a handle nobody has loaded. */
  predicate Wipes(w: Race, e: Event, h: Handle)
  {
    Overwrites(w, e) && w.active == Some(h) && !Touched(w, h)
  }

  predicate StoresNow(w: Race, e: Event, h: Handle)
  {
    Overwrites(w, e) && Stores(w.threads[e.id], h)
  }

  predicate LoadedAgain(events: seq<Event>, h: Handle)
  {
    exists i :: 0 <= i < |events| && LoadsAgain(Run(events[..i]), events[i], h)
  }

  predicate Wiped(events: seq<Event>, h: Handle)
  {
    exists i :: 0 <= i < |events| && Wipes(Run(events[..i]), events[i], h)
  }

  predicate StoresAt(events: seq<Event>, i: nat, h: Handle)
    requires i < |events|
  {
    StoresNow(Run(events[..i]), events[i], h)
  }

  predicate UsesAt(events: seq<Event>, j: nat, h: Handle)
    requires j < |events|
  {
    Loads(Run(events[..j]), events[j], h) || Overwrites(Run(events[..j]), events[j])
  }

  /** The handle was stored, and since then nobody has loaded it nor overwritten the record. */
  predicate LeftStored(events: seq<Event>, h: Handle)
  {
    exists i :: 0 <= i < |events| && StoresAt(events, i, h) && forall j :: i < j < |events| ==> !UsesAt(events, j, h)
  }

  /** The subscription or the client was closed. */
  predicate Dropped(events: seq<Event>)
  {
    exists i :: 0 <= i < |events| && Drops(Run(events[..i]), events[i])
  }

  predicate Drops(w: Race, e: Event)
  {
    !w.crashed && e.Drop? && !Locked(w) && e.id !in w.threads
  }

  // ---------------------------------------------------------------- histories one event longer

  lemma Prefixes(events: seq<Event>, e: Event)
    ensures (events + [e])[..|events|] == events
    ensures forall i :: 0 <= i <= |events| ==> (events + [e])[..i] == events[..i]
  {
  }

  lemma LoadedAgainSnoc(events: seq<Event>, e: Event, h: Handle)
    ensures LoadedAgain(events + [e], h) <==> LoadedAgain(events, h) || LoadsAgain(Run(events), e, h)
  {
    var more := events + [e];
    Prefixes(events, e);
    hide Run, LoadsAgain;
    assert LoadsAgain(Run(more[..|events|]), more[|events|], h) == LoadsAgain(Run(events), e, h);
    if LoadedAgain(events, h) {
      var i :| 0 <= i < |events| && LoadsAgain(Run(events[..i]), events[i], h);
      assert LoadsAgain(Run(more[..i]), more[i], h);
    }
  }

  lemma WipedSnoc(events: seq<Event>, e: Event, h: Handle)
    ensures Wiped(events + [e], h) <==> Wiped(events, h) || Wipes(Run(events), e, h)
  {
    var more := events + [e];
    Prefixes(events, e);
    hide Run, Wipes;
    assert Wipes(Run(more[..|events|]), more[|events|], h) == Wipes(Run(events), e, h);
    if Wiped(events, h) {
      var i :| 0 <= i < |events| && Wipes(Run(events[..i]), events[i], h);
      assert Wipes(Run(more[..i]), more[i], h);
    }
  }

  lemma DroppedSnoc(events: seq<Event>, e: Event)
    ensures Dropped(events + [e]) <==> Dropped(events) || Drops(Run(events), e)
  {
    var more := events + [e];
    Prefixes(events, e);
    hide Run, Drops;
    assert Drops(Run(more[..|events|]), more[|events|]) == Drops(Run(events), e);
    if Dropped(events) {
      var i :| 0 <= i < |events| && Drops(Run(events[..i]), events[i]);
      assert Drops(Run(more[..i]), more[i]);
    }
  }

  lemma LeftStoredSnoc(events: seq<Event>, e: Event, h: Handle)
    ensures LeftStored(events + [e], h) <==>
            StoresNow(Run(events), e, h) ||
            (LeftStored(events, h) && !Loads(Run(events), e, h) && !Overwrites(Run(events), e))
  {
    var more := events + [e];
    Prefixes(events, e);
    hide Run, StoresNow, Loads, Overwrites;
    assert StoresAt(more, |events|, h) == StoresNow(Run(events), e, h);
    assert UsesAt(more, |events|, h) == (Loads(Run(events), e, h) || Overwrites(Run(events), e));
    forall i | 0 <= i < |events|
      ensures StoresAt(more, i, h) == StoresAt(events, i, h) && UsesAt(more, i, h) == UsesAt(events, i, h)
    {
    }
    hide StoresAt, UsesAt;
    if LeftStored(events, h) && !UsesAt(more, |events|, h) {
      var i :| 0 <= i < |events| && StoresAt(events, i, h) && forall j :: i < j < |events| ==> !UsesAt(events, j, h);
      assert StoresAt(more, i, h);
    }
  }

  // ---------------------------------------------------------------- what every step keeps

  /**
    Handles in use exist, each is stored at most once, and a record that still names a loaded handle is about
    to be cleared.
  */
  ghost predicate Inv(w: Race)
  {
    && (w.active.Some? ==> w.active.value < |w.closes|)
    && (forall id :: id in w.threads ==> HandleKnown(w, w.threads[id]))
    && (forall id, k, h ::
          id in w.threads && k in w.threads && Stores(w.threads[id], h) && Stores(w.threads[k], h) ==> id == k)
    && (forall id, h: nat :: id in w.threads && Stores(w.threads[id], h) ==> w.active != Some(h) && !Touched(w, h))
    && (w.live ==> forall id :: id in w.threads ==> !IsDrop(w.threads[id]))
    && (w.live && w.active.Some? && Touched(w, w.active.value) ==> WillClear(w, w.active.value))
  }

  predicate IsDrop(pc: Pc)
  {
    pc.DropTesting? || pc.DropLoading? || pc.DropClosing?
  }

  predicate HandleKnown(w: Race, pc: Pc)
  {
    match pc
    case Closing(_, h) => h < |w.closes|
    case DropClosing(_, h) => h < |w.closes|
    case Storing(_, given) => given.Some? ==> given.value < |w.closes|
    case _ => true
  }

  predicate WillClear(w: Race, h: Handle)
  {
    exists id :: id in w.threads && (w.threads[id].Clearing? || (w.threads[id].Closing? && w.threads[id].h == h))
  }

  /** How often the handle has been loaded. */
  function Count(w: Race, h: Handle): nat
  {
    (if h < |w.closes| then w.closes[h] else 0) + |Closers(w, h)|
  }

  lemma OthersStay(w: Race, e: Event)
    ensures forall id :: id in w.threads && (!e.Move? || id != e.id) ==>
              id in Step(w, e).threads && Step(w, e).threads[id] == w.threads[id]
    ensures forall id :: id in Step(w, e).threads && id !in w.threads ==>
              e.Rebind? || (e.Drop? && IsDrop(Step(w, e).threads[id]))
  {
  }

  lemma ClosersStep(w: Race, e: Event, h: Handle)
    ensures var w' := Step(w, e);
            Closers(w', h) ==
              if Loads(w, e, h) then Closers(w, h) + {e.id}
              else if Moves(w, e) && ClosesHandle(w.threads[e.id], h) then Closers(w, h) - {e.id}
              else Closers(w, h)
    ensures Loads(w, e, h) ==> e.id !in Closers(w, h)
    ensures Moves(w, e) && ClosesHandle(w.threads[e.id], h) ==> e.id in Closers(w, h)
  {
  }

  lemma NoClosers(w: Race, h: Handle)
    requires Inv(w) && h >= |w.closes|
    ensures Closers(w, h) == {}
  {
  }

  lemma CountStep(w: Race, e: Event, h: Handle)
    requires Inv(w)
    ensures Count(Step(w, e), h) == Count(w, h) + (if Loads(w, e, h) then 1 else 0)
  {
    ClosersStep(w, e, h);
    if h >= |w.closes| {
      NoClosers(w, h);
    }
    ClosesStep(w, e, h);
    hide Step, Inv, Closers, Loads;
  }

  lemma ClosesStep(w: Race, e: Event, h: Handle)
    requires Inv(w)
    ensures var w' := Step(w, e);
            && |w.closes| <= |w'.closes| <= |w.closes| + 1
            && (h < |w.closes| ==>
                  w'.closes[h] == w.closes[h] + (if Moves(w, e) && ClosesHandle(w.threads[e.id], h) then 1 else 0))
            && (|w.closes| <= h < |w'.closes| ==> w'.closes[h] == 0)
            && (h >= |w.closes| && Moves(w, e) ==> !ClosesHandle(w.threads[e.id], h))
            && (Loads(w, e, h) ==> h < |w.closes| && !ClosesHandle(w.threads[e.id], h))
  {
    hide Closers, Touched, WillClear;
  }

  lemma TouchedCount(w: Race, h: Handle)
    ensures Touched(w, h) <==> h < |w.closes| && Count(w, h) > 0
  {
  }

  lemma TouchedStep(w: Race, e: Event, h: Handle)
    requires Inv(w)
    ensures Touched(Step(w, e), h) <==> Touched(w, h) || Loads(w, e, h)
  {
    TouchedCount(w, h);
    TouchedCount(Step(w, e), h);
    CountStep(w, e, h);
    ClosesStep(w, e, h);
    if h >= |w.closes| {
      NoClosers(w, h);
    }
    hide Step, Inv, Touched, Loads;
  }

  lemma KnownKept(w: Race, e: Event)
    requires Inv(w)
    ensures var w' := Step(w, e);
            && (w'.active.Some? ==> w'.active.value < |w'.closes|)
            && forall id :: id in w'.threads ==> HandleKnown(w', w'.threads[id])
  {
    ClosesStep(w, e, 0);
    OthersStay(w, e);
    hide Touched, WillClear, Closers;
  }

  /** A handle is on its way to the record only from the backend's answer until it is stored. */
  lemma StorersStep(w: Race, e: Event)
    requires Inv(w)
    ensures var w' := Step(w, e);
            forall id, h: nat :: id in w'.threads && Stores(w'.threads[id], h) ==>
              || (id in w.threads && w.threads[id] == w'.threads[id] && h < |w.closes|)
              || (e.Move? && id == e.id && h == |w.closes|)
  {
    OthersStay(w, e);
    hide Touched, WillClear, Closers;
  }

  lemma ActiveStep(w: Race, e: Event)
    requires Inv(w)
    ensures var w' := Step(w, e);
            && (!Overwrites(w, e) ==> w'.active == w.active)
            && (Overwrites(w, e) ==>
                  w'.active == None ||
                  (e.id in w.threads && Stores(w.threads[e.id], w'.active.value) && e.id !in w'.threads))
  {
    hide Inv, Touched;
  }

  lemma NewUntouched(w: Race, h: Handle)
    requires h >= |w.closes|
    ensures !Touched(w, h)
  {
  }

  lemma StorersKept(w: Race, e: Event)
    requires Inv(w)
    ensures var w' := Step(w, e);
            && (forall id, k, h ::
                  id in w'.threads && k in w'.threads && Stores(w'.threads[id], h) && Stores(w'.threads[k], h) ==>
                  id == k)
            && (forall id, h: nat :: id in w'.threads && Stores(w'.threads[id], h) ==>
                 w'.active != Some(h) && !Touched(w', h))
  {
    StorersStep(w, e);
    ActiveStep(w, e);
    forall id, h: nat | id in Step(w, e).threads && Stores(Step(w, e).threads[id], h)
      ensures !Touched(Step(w, e), h)
    {
      TouchedStep(w, e, h);
      if h >= |w.closes| {
        NewUntouched(w, h);
      }
    }
    hide Step, Touched, WillClear, HandleKnown;
  }

  lemma DropsKept(w: Race, e: Event)
    requires Inv(w)
    ensures var w' := Step(w, e); w'.live ==> w.live && forall id :: id in w'.threads ==> !IsDrop(w'.threads[id])
  {
    OthersStay(w, e);
    hide Touched, WillClear, Closers, HandleKnown;
  }

  lemma ClearKept(w: Race, e: Event)
    requires Inv(w)
    ensures var w' := Step(w, e);
            w'.live && w'.active.Some? && Touched(w', w'.active.value) ==> WillClear(w', w'.active.value)
  {
    var w' := Step(w, e);
    if w'.live && w'.active.Some? && Touched(w', w'.active.value) {
      var h := w'.active.value;
      DropsKept(w, e);
      ActiveStep(w, e);
      TouchedStep(w, e, h);
      OthersStay(w, e);
      assert !Overwrites(w, e);
      if Loads(w, e, h) {
        assert w'.threads[e.id].Closing? && w'.threads[e.id].h == h;
      } else {
        var id :| id in w.threads && (w.threads[id].Clearing? || (w.threads[id].Closing? && w.threads[id].h == h));
        assert id in w'.threads && (w'.threads[id] == w.threads[id] || w'.threads[id].Clearing?);
      }
    }
  }

  lemma InvKept(w: Race, e: Event)
    requires Inv(w)
    ensures Inv(Step(w, e))
  {
    KnownKept(w, e);
    StorersKept(w, e);
    DropsKept(w, e);
    ClearKept(w, e);
    hide Step, Touched, WillClear, HandleKnown;
  }

  lemma {:induction false} RunInv(events: seq<Event>)
    ensures Inv(Run(events))
  {
    if events != [] {
      RunInv(events[..|events| - 1]);
      InvKept(Run(events[..|events| - 1]), events[|events| - 1]);
      hide Inv, Step;
    }
  }

  // ---------------------------------------------------------------- main results

  /** A handle no goroutine will ever close: nobody has loaded it, and neither the record nor a goroutine names it. */
  predicate Lost(w: Race, h: Handle)
  {
    h < |w.closes| && !Touched(w, h) && w.active != Some(h) && Storers(w, h) == {}
  }

  lemma StorersOf(w: Race, e: Event, h: Handle)
    requires Inv(w) && h < |w.closes|
    ensures Storers(Step(w, e), h) == if StoresNow(w, e, h) then Storers(w, h) - {e.id} else Storers(w, h)
    ensures StoresNow(w, e, h) ==> Step(w, e).active == Some(h) && e.id in Storers(w, h)
  {
    OthersStay(w, e);
    StorersStep(w, e);
    hide Touched, WillClear, HandleKnown, Closers;
  }

  lemma StorerFacts(w: Race, h: Handle)
    requires Inv(w) && Storers(w, h) != {}
    ensures w.active != Some(h) && !Touched(w, h)
  {
    var id :| id in Storers(w, h);
  }

  lemma LostStep(w: Race, e: Event, h: Handle)
    requires Inv(w)
    ensures Lost(Step(w, e), h) <==> Lost(w, h) || Wipes(w, e, h)
  {
    ActiveStep(w, e);
    TouchedStep(w, e, h);
    ClosesStep(w, e, h);
    ActiveKnown(w);
    if h < |w.closes| {
      StorersOf(w, e, h);
      if Storers(w, h) != {} {
        StorerFacts(w, h);
      }
      if Overwrites(w, e) && Stores(w.threads[e.id], h) {
        assert e.id in Storers(w, h);
      }
    } else if |Step(w, e).closes| > |w.closes| {
      OpensNew(w, e);
    }
    hide Inv, Touched, Step, Storers, Stores;
  }

  lemma ActiveKnown(w: Race)
    requires Inv(w)
    ensures w.active.Some? ==> w.active.value < |w.closes|
  {
  }

  /** A new handle is on its way to the record. */
  lemma OpensNew(w: Race, e: Event)
    requires |Step(w, e).closes| > |w.closes|
    ensures Storers(Step(w, e), |w.closes|) != {} && |Step(w, e).closes| == |w.closes| + 1
  {
    assert e.id in Storers(Step(w, e), |w.closes|);
  }

  lemma {:induction false} LostIff(events: seq<Event>, h: Handle)
    ensures Lost(Run(events), h) <==> Wiped(events, h)
  {
    if events != [] {
      var front, e := events[..|events| - 1], events[|events| - 1];
      assert events == front + [e];
      RunInv(front);
      LostIff(front, h);
      LostStep(Run(front), e, h);
      WipedSnoc(front, e, h);
      hide Lost, Wiped, Step, Inv, Wipes;
    }
  }

  lemma {:induction false} AgainIff(events: seq<Event>, h: Handle)
    ensures Count(Run(events), h) >= 2 <==> LoadedAgain(events, h)
  {
    if events != [] {
      var front, e := events[..|events| - 1], events[|events| - 1];
      var w := Run(front);
      assert events == front + [e];
      RunInv(front);
      AgainIff(front, h);
      CountStep(w, e, h);
      TouchedCount(w, h);
      LoadKnown(w, e, h);
      LoadedAgainSnoc(front, e, h);
      hide LoadedAgain, Step, Inv, Loads, Count, Touched;
    } else {
      assert Closers(SUBSCRIBED, h) == {};
    }
  }

  lemma LoadKnown(w: Race, e: Event, h: Handle)
    requires Inv(w)
    ensures Loads(w, e, h) ==> h < |w.closes|
  {
  }

  predicate Kept(w: Race, h: Handle)
  {
    w.active == Some(h) && !Touched(w, h)
  }

  lemma KeptStep(w: Race, e: Event, h: Handle)
    requires Inv(w)
    ensures Kept(Step(w, e), h) <==> StoresNow(w, e, h) || (Kept(w, h) && !Loads(w, e, h) && !Overwrites(w, e))
  {
    ActiveStep(w, e);
    TouchedStep(w, e, h);
    LoadKnown(w, e, h);
    if StoresNow(w, e, h) {
      assert e.id in Storers(w, h);
      StorerFacts(w, h);
      StoredKnown(w, e.id, h);
      StorersOf(w, e, h);
    }
    LoadsKeepRecord(w, e, h);
    hide Inv, Touched, Step, Storers;
  }

  lemma StoredKnown(w: Race, id: nat, h: Handle)
    requires Inv(w) && id in w.threads && Stores(w.threads[id], h)
    ensures h < |w.closes|
  {
    assert HandleKnown(w, w.threads[id]);
  }

  lemma LoadsKeepRecord(w: Race, e: Event, h: Handle)
    ensures Loads(w, e, h) ==> !Overwrites(w, e)
  {
  }

  lemma {:induction false} KeptIff(events: seq<Event>, h: Handle)
    ensures Kept(Run(events), h) <==> LeftStored(events, h)
  {
    if events != [] {
      var front, e := events[..|events| - 1], events[|events| - 1];
      assert events == front + [e];
      RunInv(front);
      KeptIff(front, h);
      KeptStep(Run(front), e, h);
      LeftStoredSnoc(front, e, h);
      hide Kept, LeftStored, Step, Inv, Loads, Overwrites, StoresNow;
    }
  }

  lemma {:induction false} DroppedIff(events: seq<Event>)
    ensures !Run(events).live <==> Dropped(events)
  {
    if events != [] {
      var front, e := events[..|events| - 1], events[|events| - 1];
      assert events == front + [e];
      DroppedIff(front);
      LiveStep(Run(front), e);
      DroppedSnoc(front, e);
      hide Dropped, Drops, Step;
    }
  }

  lemma LiveStep(w: Race, e: Event)
    ensures Step(w, e).live <==> w.live && !Drops(w, e)
  {
  }

  /** A handle ends closed more than once exactly when it was loaded after someone had loaded it. */
  lemma ClosedTwiceIff(events: seq<Event>, h: Handle)
    requires Run(events).threads == map[] && h < |Run(events).closes|
    ensures Run(events).closes[h] >= 2 <==> LoadedAgain(events, h)
  {
    AgainIff(events, h);
    assert Closers(Run(events), h) == {};
    hide LoadedAgain, Run;
  }

  /**
    A handle ends open and forgotten exactly when the record was overwritten while it named it and nobody had
    loaded it.
  */
  lemma LeakedIff(events: seq<Event>, h: Handle)
    requires Run(events).threads == map[] && h < |Run(events).closes|
    ensures Run(events).closes[h] == 0 && Run(events).active != Some(h) <==> Wiped(events, h)
  {
    LostIff(events, h);
    assert Closers(Run(events), h) == {} && Storers(Run(events), h) == {};
    hide Wiped, Run;
  }

  /** The handle's own account at rest. */
  lemma AccountOf(w: Race, h: Handle)
    requires Inv(w) && w.threads == map[] && h < |w.closes|
    ensures Count(w, h) == w.closes[h]
    ensures Lost(w, h) <==> w.closes[h] == 0 && w.active != Some(h)
    ensures Kept(w, h) <==> w.closes[h] == 0 && w.active == Some(h)
    ensures w.live && w.active == Some(h) ==> w.closes[h] == 0
  {
    assert Closers(w, h) == {} && Storers(w, h) == {};
  }

  /**
    When no goroutine is under way every handle has been closed exactly once, but the active one of a live
    subscription not at all, exactly when no handle was loaded twice, none was wiped from the
    record unloaded, and none was left in the record of a subscription that has been closed.
  */
  lemma AccountedIff(events: seq<Event>)
    requires Run(events).threads == map[]
    ensures Accounted(Run(events)) <==>
            forall h :: 0 <= h < |Run(events).closes| ==>
              !LoadedAgain(events, h) && !Wiped(events, h) && !(Dropped(events) && LeftStored(events, h))
  {
    RunInv(events);
    DroppedIff(events);
    forall h | 0 <= h < |Run(events).closes|
      ensures Run(events).closes[h] == (if Run(events).live && Run(events).active == Some(h) then 0 else 1) <==>
              !LoadedAgain(events, h) && !Wiped(events, h) && !(Dropped(events) && LeftStored(events, h))
    {
      AccountOf(Run(events), h);
      AgainIff(events, h);
      LostIff(events, h);
      KeptIff(events, h);
      hide Run, LoadedAgain, Wiped, LeftStored, Dropped, Inv, Lost, Kept, Count;
    }
    hide Run, LoadedAgain, Wiped, LeftStored, Dropped, Inv;
  }

  // ---------------------------------------------------------------- all windows are hit

  /** A subscription on the cloud with the handle 0. */
  lemma OnCloud() returns (events: seq<Event>)
    ensures Run(events) == Race("cloud", Some(0), true, [0], "cloud", map[], false)
  {
    events := [];
    RunSnoc(events, Turn("cloud"));
    events := events + [Turn("cloud")];
    RunSnoc(events, Rebind(0));
    events := events + [Rebind(0)];
    RunSnoc(events, Move(0, true));
    events := events + [Move(0, true)];
    RunSnoc(events, Move(0, true));
    events := events + [Move(0, true)];
    assert Run(events) == Race("", None, true, [], "cloud", map[0 := Opening("cloud")], false);
    RunSnoc(events, Move(0, true));
    events := events + [Move(0, true)];
    RunSnoc(events, Move(0, true));
    events := events + [Move(0, true)];
  }

  /** Two goroutines have found the subscription on a source that its device has left. */
  lemma TwoLoading() returns (events: seq<Event>)
    ensures Run(events) == Race("cloud", Some(0), true, [0], "lan", map[1 := Loading("lan"), 2 := Loading("lan")],
            false)
  {
    events := OnCloud();
    RunSnoc(events, Turn("lan"));
    events := events + [Turn("lan")];
    RunSnoc(events, Rebind(1));
    events := events + [Rebind(1)];
    RunSnoc(events, Move(1, true));
    events := events + [Move(1, true)];
    RunSnoc(events, Move(1, true));
    events := events + [Move(1, true)];
    assert Run(events) == Race("cloud", Some(0), true, [0], "lan", map[1 := Loading("lan")], false);
    RunSnoc(events, Rebind(2));
    events := events + [Rebind(2)];
    RunSnoc(events, Move(2, true));
    events := events + [Move(2, true)];
    RunSnoc(events, Move(2, true));
    events := events + [Move(2, true)];
  }

  lemma BothClosed() returns (events: seq<Event>)
    ensures Run(events) == Race("cloud", Some(0), true, [2], "lan", map[1 := Clearing("lan"), 2 := Clearing("lan")],
            false)
  {
    events := TwoLoading();
    RunSnoc(events, Move(1, true));
    events := events + [Move(1, true)];
    RunSnoc(events, Move(2, true));
    events := events + [Move(2, true)];
    assert Run(events) == Race("cloud", Some(0), true, [0], "lan", map[1 := Closing("lan", 0), 2 := Closing("lan",
      0)], false);
    RunSnoc(events, Move(1, true));
    events := events + [Move(1, true)];
    RunSnoc(events, Move(2, true));
    events := events + [Move(2, true)];
  }

  /** Two refreshes that rebind at once close one handle twice and leave another open for ever. */
  lemma TwoRebinds() returns (events: seq<Event>)
    ensures Run(events) == Race("lan", Some(2), true, [2, 0, 0], "lan", map[], false)
  {
    events := BothClosed();
    RunSnoc(events, Move(1, true));
    events := events + [Move(1, true)];
    RunSnoc(events, Move(2, true));
    events := events + [Move(2, true)];
    assert Run(events) == Race("cloud", None, true, [2], "lan", map[1 := Opening("lan"), 2 := Opening("lan")], false);
    RunSnoc(events, Move(1, true));
    events := events + [Move(1, true)];
    RunSnoc(events, Move(2, true));
    events := events + [Move(2, true)];
    assert Run(events) ==
      Race("cloud", None, true, [2, 0, 0], "lan", map[1 := Storing("lan", Some(1)), 2 := Storing("lan", Some(2))],
        false);
    RunSnoc(events, Move(1, true));
    events := events + [Move(1, true)];
    RunSnoc(events, Move(2, true));
    events := events + [Move(2, true)];
  }

  /** Or the second calls a handle that the first has cleared, which ends the program. */
  lemma CallsCleared() returns (events: seq<Event>)
    ensures Run(events).crashed
  {
    events := TwoLoading();
    RunSnoc(events, Move(1, true));
    events := events + [Move(1, true)];
    RunSnoc(events, Move(1, true));
    events := events + [Move(1, true)];
    RunSnoc(events, Move(1, true));
    events := events + [Move(1, true)];
    assert Run(events) == Race("cloud", None, true, [1], "lan", map[1 := Opening("lan"), 2 := Loading("lan")], false);
    RunSnoc(events, Move(2, true));
    events := events + [Move(2, true)];
  }

  /** A subscription closed while it is being bound keeps a handle that nobody closes. */
  lemma ClosedWhileBinding() returns (events: seq<Event>)
    ensures Run(events) == Race("cloud", Some(0), false, [0], "cloud", map[], false)
  {
    events := [];
    RunSnoc(events, Turn("cloud"));
    events := events + [Turn("cloud")];
    RunSnoc(events, Rebind(0));
    events := events + [Rebind(0)];
    RunSnoc(events, Move(0, true));
    events := events + [Move(0, true)];
    RunSnoc(events, Move(0, true));
    events := events + [Move(0, true)];
    RunSnoc(events, Move(0, true));
    events := events + [Move(0, true)];
    assert Run(events) == Race("", None, true, [0], "cloud", map[0 := Storing("cloud", Some(0))], false);
    RunSnoc(events, Drop(1, true));
    events := events + [Drop(1, true)];
    RunSnoc(events, Move(1, true));
    events := events + [Move(1, true)];
    assert Run(events) == Race("", None, false, [0], "cloud", map[0 := Storing("cloud", Some(0))], false);
    RunSnoc(events, Move(0, true));
    events := events + [Move(0, true)];
  }
}
