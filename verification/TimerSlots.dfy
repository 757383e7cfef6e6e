/**
  Timer slots of the MIoT coordinator (client.go:444-536, 669-731, 768-866): each slot holds at most
  one stop channel, and each channel has one goroutine that waits for it, for its timer or for
  the runtime context. Sections under the mutex are single steps; a cancel takes the channel in
  one step and closes it in a later one, so schedules, cancels, fires and closes interleave freely.
*/
module TimerSlots {
  import opened Wrappers

  type Slot = string
  type Chan = nat

  datatype Phase = Waiting | Woken | Done

  /** `slotOf`, `closes` and `phases` are indexed by channel; `taken` are channels a cancel has yet to close. */
  datatype Timers = Timers(
    slots: map<Slot, Chan>, slotOf: seq<Slot>, closes: seq<nat>, phases: seq<Phase>, taken: set<Chan>)

  const IDLE := Timers(map[], [], [], [], {})

  predicate Shaped(t: Timers)
  {
    |t.slotOf| == |t.closes| == |t.phases|
  }

  function CloseChan(closes: seq<nat>, c: Chan): seq<nat>
  {
    if c < |closes| then closes[c := closes[c] + 1] else closes
  }

  /** Replaces what the slot holds by a new channel, closing the old one, and starts its goroutine. */
  function Schedule(t: Timers, slot: Slot): Timers
  {
    Timers(
      t.slots[slot := |t.slotOf|],
      t.slotOf + [slot],
      (if slot in t.slots then CloseChan(t.closes, t.slots[slot]) else t.closes) + [0],
      t.phases + [Waiting],
      t.taken)
  }

  function Take(t: Timers, slot: Slot): Timers
  {
    if slot in t.slots then t.(slots := t.slots - {slot}, taken := t.taken + {t.slots[slot]}) else t
  }

  /** Closing the whole client empties every slot at once. */
  function TakeAll(t: Timers): Timers
  {
    t.(slots := map[], taken := t.taken + t.slots.Values)
  }

  /** A woken goroutine frees its slot, if that still holds its channel, and goes on to run its callback. */
  function Release(t: Timers, c: Chan): Timers
    requires Shaped(t) && c < |t.phases|
  {
    var slot := t.slotOf[c];
    t.(slots := if slot in t.slots && t.slots[slot] == c then t.slots - {slot} else t.slots,
       phases := t.phases[c := Done])
  }

  // ---------------------------------------------------------------- the locked sections

  class SlotTable {
    var slots: map<Slot, Chan>
    var slotOf: seq<Slot>
    var closes: seq<nat>
    ghost var phases: seq<Phase>
    var taken: set<Chan>

    ghost function View(): Timers
      reads this
    {
      Timers(slots, slotOf, closes, phases, taken)
    }

    constructor ()
      ensures View() == IDLE
    {
      slots, slotOf, closes, taken := map[], [], [], {};
      phases := [];
    }

    method ScheduleSlot(slot: Slot) returns (stop: Chan)
      modifies this
      ensures View() == Schedule(old(View()), slot) && stop == |old(slotOf)|
    {
      stop := |slotOf|;
      if slot in slots && slots[slot] < |closes| {
        closes := closes[slots[slot] := closes[slots[slot]] + 1];
      }
      closes := closes + [0];
      slots := slots[slot := stop];
      slotOf := slotOf + [slot];
      phases := phases + [Waiting];
    }

    method TakeSlot(slot: Slot)
      modifies this`slots, this`taken
      ensures View() == Take(old(View()), slot)
    {
      if slot in slots {
        taken := taken + {slots[slot]};
        slots := slots - {slot};
      }
    }

    method TakeEverySlot()
      modifies this`slots, this`taken
      ensures View() == TakeAll(old(View()))
    {
      taken := taken + slots.Values;
      slots := map[];
    }

    method ReleaseSlot(c: Chan)
      requires Shaped(View()) && c < |slotOf|
      modifies this`slots, this`phases
      ensures View() == Release(old(View()), c)
    {
      var slot := slotOf[c];
      if slot in slots && slots[slot] == c {
        slots := slots - {slot};
      }
      phases := phases[c := Done];
    }
  }

  // ---------------------------------------------------------------- interleavings

  datatype Event =
    | Scheduled(slot: Slot)
    | Taken(slot: Slot)
    | TakenAll
    | ChanClosed(c: Chan)
    | Fired(c: Chan)
    | Stopped(c: Chan)
    | ContextDone(c: Chan)
    | Locked(c: Chan)

  /** A fired timer may win the select even when the stop channel is closed too. */
  predicate Enabled(t: Timers, e: Event)
  {
    Shaped(t) &&
    match e
    case Scheduled(_) => true
    case Taken(_) => true
    case TakenAll => true
    case ChanClosed(c) => c in t.taken
    case Fired(c) => c < |t.phases| && t.phases[c] == Waiting
    case Stopped(c) => c < |t.phases| && t.phases[c] == Waiting && t.closes[c] > 0
    case ContextDone(c) => c < |t.phases| && t.phases[c] == Waiting
    case Locked(c) => c < |t.phases| && t.phases[c] == Woken
  }

  function Apply(t: Timers, e: Event): Timers
    requires Enabled(t, e)
  {
    match e
    case Scheduled(slot) => Schedule(t, slot)
    case Taken(slot) => Take(t, slot)
    case TakenAll => TakeAll(t)
    case ChanClosed(c) => t.(closes := CloseChan(t.closes, c), taken := t.taken - {c})
    case Fired(c) => t.(phases := t.phases[c := Woken])
    case Stopped(c) => t.(phases := t.phases[c := Done])
    case ContextDone(c) => t.(phases := t.phases[c := Done])
    case Locked(c) => Release(t, c)
  }

  function After(events: seq<Event>): Option<Timers>
  {
    if events == [] then Some(IDLE)
    else
      var n := |events| - 1;
      match After(events[..n])
      case None => None
      case Some(t) => if Enabled(t, events[n]) then Some(Apply(t, events[n])) else None
  }

  predicate InSlot(t: Timers, c: Chan)
    requires Shaped(t) && c < |t.slotOf|
  {
    t.slotOf[c] in t.slots && t.slots[t.slotOf[c]] == c
  }

  /**
    Each open channel has one owner: its slot, a cancel that has taken it, or nobody once its
    goroutine has fired; only owners close, and they give the channel up when they do.
  */
  ghost predicate Inv(t: Timers)
  {
    && Shaped(t)
    && (forall s :: s in t.slots ==> t.slots[s] < |t.slotOf| && t.slotOf[t.slots[s]] == s)
    && (forall c :: c in t.taken ==> c < |t.slotOf| && !InSlot(t, c))
    && (forall c :: 0 <= c < |t.closes| ==>
          t.closes[c] <= 1 &&
          (InSlot(t, c) || c in t.taken ==> t.closes[c] == 0) &&
          (t.phases[c] == Waiting ==> InSlot(t, c) || c in t.taken || t.closes[c] == 1))
  }

  lemma ScheduleKeeps(t: Timers, slot: Slot)
    requires Inv(t)
    ensures Inv(Schedule(t, slot))
  {
  }

  lemma TakeKeeps(t: Timers, slot: Slot)
    requires Inv(t)
    ensures Inv(Take(t, slot))
  {
  }

  lemma TakeAllKeeps(t: Timers)
    requires Inv(t)
    ensures Inv(TakeAll(t))
  {
  }

  lemma CloseKeeps(t: Timers, c: Chan)
    requires Inv(t) && c in t.taken
    ensures Inv(t.(closes := CloseChan(t.closes, c), taken := t.taken - {c}))
  {
  }

  lemma LockedKeeps(t: Timers, c: Chan)
    requires Inv(t) && c < |t.phases| && t.phases[c] == Woken
    ensures Inv(Release(t, c))
  {
  }

  lemma PhaseKeeps(t: Timers, c: Chan, phase: Phase)
    requires Inv(t) && c < |t.phases| && phase != Waiting
    ensures Inv(t.(phases := t.phases[c := phase]))
  {
  }

  lemma ApplyKeeps(t: Timers, e: Event)
    requires Inv(t) && Enabled(t, e)
    ensures Inv(Apply(t, e))
  {
    hide Inv;
    match e {
      case Scheduled(slot) => ScheduleKeeps(t, slot);
      case Taken(slot) => TakeKeeps(t, slot);
      case TakenAll => TakeAllKeeps(t);
      case ChanClosed(c) => CloseKeeps(t, c);
      case Fired(c) => PhaseKeeps(t, c, Woken);
      case Stopped(c) => PhaseKeeps(t, c, Done);
      case ContextDone(c) => PhaseKeeps(t, c, Done);
      case Locked(c) => LockedKeeps(t, c);
    }
  }

  lemma {:induction false} RunInv(events: seq<Event>)
    requires After(events).Some?
    ensures Inv(After(events).value)
  {
    if events != [] {
      var n := |events| - 1;
      RunInv(events[..n]);
      ApplyKeeps(After(events[..n]).value, events[n]);
    }
  }

  /** In every interleaving each stop channel is closed at most once. */
  lemma ClosedAtMostOnce(events: seq<Event>, c: Chan)
    requires After(events).Some? && c < |After(events).value.closes|
    ensures After(events).value.closes[c] <= 1
  {
    RunInv(events);
  }

  /** Goroutines of one slot that still wait on a channel nobody has closed. */
  function LiveWaiters(t: Timers, slot: Slot): set<Chan>
  {
    if Shaped(t)
    then set c | 0 <= c < |t.phases| && t.slotOf[c] == slot && t.phases[c] == Waiting && t.closes[c] == 0
    else {}
  }

  /**
    Live waiters of a slot: the one the slot holds, and one for each cancel that has taken a channel
    and not yet closed it. With no cancel half done there is at most one.
  */
  lemma AtMostOneWaiter(events: seq<Event>, slot: Slot)
    requires After(events).Some?
    ensures var t := After(events).value;
            var held := if slot in t.slots then {t.slots[slot]} else {};
            LiveWaiters(t, slot) <= held + t.taken &&
            |LiveWaiters(t, slot)| <= 1 + |t.taken|
  {
    RunInv(events);
    var t := After(events).value;
    var held := if slot in t.slots then {t.slots[slot]} else {};
    assert forall c :: c in LiveWaiters(t, slot) && InSlot(t, c) ==> c in held;
    SubsetSize(LiveWaiters(t, slot), held + t.taken);
    UnionSize(held, t.taken);
  }

  /** The goroutine of a channel saw the runtime context end. */
  predicate ContextEnded(events: seq<Event>, c: Chan)
  {
    ContextDone(c) in events
  }

  /** What a step does to the goroutine of a channel that stays in its slot. */
  lemma SlotStep(t: Timers, e: Event, c: Chan)
    requires Inv(t) && Enabled(t, e)
    requires var t' := Apply(t, e); c < |t'.slotOf| && InSlot(t', c)
    ensures c < |t.slotOf| ==> InSlot(t, c) && (Apply(t, e).phases[c] == Done <==>
            t.phases[c] == Done || e == ContextDone(c))
    ensures c == |t.slotOf| ==> Apply(t, e).phases[c] == Waiting
    ensures c <= |t.slotOf|
  {
  }

  lemma {:induction false} NotYetMade(events: seq<Event>, c: Chan)
    requires After(events).Some? && c >= |After(events).value.slotOf|
    ensures !ContextEnded(events, c)
  {
    if events != [] {
      var n := |events| - 1;
      assert events == events[..n] + [events[n]];
      NotYetMade(events[..n], c);
    }
  }

  /** The goroutine of a channel in its slot is gone exactly when it has seen the runtime context end. */
  lemma {:induction false} SlotDeadIff(events: seq<Event>, c: Chan)
    requires After(events).Some?
    requires var t := After(events).value; Shaped(t) && c < |t.slotOf| && InSlot(t, c)
    ensures After(events).value.phases[c] == Done <==> ContextEnded(events, c)
  {
    if events != [] {
      var n := |events| - 1;
      var t := After(events[..n]).value;
      assert events == events[..n] + [events[n]];
      RunInv(events[..n]);
      SlotStep(t, events[n], c);
      hide Inv, Apply;
      if c < |t.slotOf| {
        SlotDeadIff(events[..n], c);
      } else {
        NotYetMade(events[..n], c);
      }
    }
  }

  // ---------------------------------------------------------------- what each channel came to

  /** The channel that a schedule makes after some events. */
  function Made(events: seq<Event>): Chan
  {
    if After(events).Some? then |After(events).value.slotOf| else 0
  }

  /**
    Channel `c` of slot `s` was put in its slot, and neither a schedule, a cancel, a close nor its own firing
    has taken it out.
  */
  predicate Held(events: seq<Event>, s: Slot, c: Chan)
  {
    events != [] &&
    var older := events[..|events| - 1];
    match events[|events| - 1]
    case Scheduled(slot) => c == Made(older) || (slot != s && Held(older, s, c))
    case Taken(slot) => slot != s && Held(older, s, c)
    case TakenAll => false
    case Locked(k) => k != c && Held(older, s, c)
    case _ => Held(older, s, c)
  }

  /** A cancel or a close took it out of its slot and has yet to close it. */
  predicate Pending(events: seq<Event>, s: Slot, c: Chan)
  {
    events != [] &&
    var older := events[..|events| - 1];
    match events[|events| - 1]
    case Taken(slot) => (slot == s && Held(older, s, c)) || Pending(older, s, c)
    case TakenAll => Held(older, s, c) || Pending(older, s, c)
    case ChanClosed(k) => k != c && Pending(older, s, c)
    case _ => Pending(older, s, c)
  }

  /** A schedule replaced it in its slot, or a cancel or close has closed it. */
  predicate ClosedBy(events: seq<Event>, s: Slot, c: Chan)
  {
    events != [] &&
    var older := events[..|events| - 1];
    match events[|events| - 1]
    case Scheduled(slot) => (slot == s && Held(older, s, c)) || ClosedBy(older, s, c)
    case ChanClosed(k) => k == c || ClosedBy(older, s, c)
    case _ => ClosedBy(older, s, c)
  }

  lemma {:induction false} NotMade(events: seq<Event>, s: Slot, c: Chan)
    requires After(events).Some? && c >= |After(events).value.slotOf|
    ensures !Held(events, s, c) && !Pending(events, s, c) && !ClosedBy(events, s, c)
  {
    if events != [] {
      NotMade(events[..|events| - 1], s, c);
      RunInv(events[..|events| - 1]);
    }
  }

  lemma ChanStep(t: Timers, e: Event, c: Chan)
    requires Inv(t) && Enabled(t, e) && c < |t.slotOf|
    ensures var t' := Apply(t, e);
            && Shaped(t') && c < |t'.slotOf| && t'.slotOf[c] == t.slotOf[c]
            && (InSlot(t', c) <==>
                  match e
                  case Scheduled(slot) => slot != t.slotOf[c] && InSlot(t, c)
                  case Taken(slot) => slot != t.slotOf[c] && InSlot(t, c)
                  case TakenAll => false
                  case Locked(k) => k != c && InSlot(t, c)
                  case _ => InSlot(t, c))
            && (c in t'.taken <==>
                  match e
                  case Taken(slot) => (slot == t.slotOf[c] && InSlot(t, c)) || c in t.taken
                  case TakenAll => InSlot(t, c) || c in t.taken
                  case ChanClosed(k) => k != c && c in t.taken
                  case _ => c in t.taken)
            && t'.closes[c] == t.closes[c] +
                 (match e
                  case Scheduled(slot) => if slot == t.slotOf[c] && InSlot(t, c) then 1 else 0
                  case ChanClosed(k) => if k == c then 1 else 0
                  case _ => 0)
  {
  }

  lemma NewChan(t: Timers, slot: Slot)
    requires Inv(t)
    ensures var t' := Schedule(t, slot);
            var c := |t.slotOf|;
            Shaped(t') && t'.slotOf[c] == slot && InSlot(t', c) && c !in t'.taken && t'.closes[c] == 0
  {
  }

  /**
    What every channel has come to, from the events alone: whether its slot holds it, whether a cancel is
    about to close it, and whether it has been closed.
  */
  lemma {:induction false} ChannelIff(events: seq<Event>, c: Chan)
    requires After(events).Some? && c < |After(events).value.slotOf|
    ensures var t := After(events).value;
            && Shaped(t)
            && (InSlot(t, c) <==> Held(events, t.slotOf[c], c))
            && (c in t.taken <==> Pending(events, t.slotOf[c], c))
            && (t.closes[c] > 0 <==> ClosedBy(events, t.slotOf[c], c))
  {
    var n := |events| - 1;
    var older, e := events[..n], events[n];
    var t := After(older).value;
    RunInv(older);
    hide Inv, Apply, Enabled;
    if c < |t.slotOf| {
      ChannelIff(older, c);
      ChanStep(t, e, c);
    } else {
      OnlyScheduleMakes(t, e, c);
      NotMade(older, e.slot, c);
      NewChan(t, e.slot);
    }
  }

  lemma OnlyScheduleMakes(t: Timers, e: Event, c: Chan)
    requires Inv(t) && Enabled(t, e) && |t.slotOf| <= c < |Apply(t, e).slotOf|
    ensures e.Scheduled? && c == |t.slotOf| && Apply(t, e) == Schedule(t, e.slot)
  {
  }

  lemma {:induction false} SubsetSize<T>(a: set<T>, b: set<T>)
    requires a <= b
    ensures |a| <= |b|
    decreases a
  {
    if a != {} {
      var x :| x in a;
      SubsetSize(a - {x}, b - {x});
    }
  }

  lemma UnionSize<T>(a: set<T>, b: set<T>)
    ensures |a + b| <= |a| + |b|
  {
    assert a + b == a + (b - a);
    assert |a + (b - a)| == |a| + |b - a|;
    SubsetSize(b - a, b);
  }
}
