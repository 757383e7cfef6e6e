/**
  The MIoT coordinator object (client.go:562-616, 904-982, 1351-1756): refreshes rewrite the device
  registry, live subscriptions follow their device's push source from backend to backend, and
  state listeners are told of changes. Backends answer as they please; every handle they hand
  out is kept on record with the number of times it was closed.
*/
module MIoTClient {
  import opened Wrappers
  import opened Coordinator

  datatype Kind = Property | Event

  type SubId = nat
  type HandleId = nat

  datatype Sub = Sub(kind: Kind, did: Did, source: string, active: Option<HandleId>)

  datatype Handle = Handle(sub: SubId, source: string, closes: nat)

  /** One call that asked a backend to subscribe, and whether it gave a handle. */
  datatype Ask = Ask(sub: SubId, kind: Kind, source: string, given: bool)

  /** The newest call for a subscription. */
  function LastAsk(asked: seq<Ask>, id: SubId): Option<Ask>
  {
    if asked == [] then None
    else if asked[|asked| - 1].sub == id then Some(asked[|asked| - 1])
    else LastAsk(asked[..|asked| - 1], id)
  }

  /** The backends a client was made with. */
  datatype Backends = Backends(cloudPush: bool, lan: bool, routes: set<string>)
  {
    predicate Has(source: string)
    {
      if source == CLOUD then cloudPush
      else if source == LAN then lan
      else source != "" && source in routes
    }
  }

  /**
    A subscription on a source whose backend exists has asked that backend last, for its own kind, and is active
    exactly when it was given a handle, as the LAN always does; on any other source it is not active.
  */
  predicate Served(b: Backends, sub: Sub, last: Option<Ask>)
  {
    if b.Has(sub.source) then
      && last.Some? && last.value.source == sub.source && last.value.kind == sub.kind
      && (last.value.given <==> sub.active.Some?)
      && (sub.source == LAN ==> sub.active.Some?)
    else sub.active == None
  }

  ghost predicate AllServed(b: Backends, subs: map<SubId, Sub>, live: set<SubId>, asked: seq<Ask>)
  {
    forall id :: id in live && id in subs ==> Served(b, subs[id], LastAsk(asked, id))
  }

  lemma LastAskSnoc(asked: seq<Ask>, a: Ask, id: SubId)
    ensures LastAsk(asked + [a], id) == if a.sub == id then Some(a) else LastAsk(asked, id)
  {
    assert (asked + [a])[..|asked|] == asked;
  }

  /** The calls that moving one subscription makes: one, if it has a backend to move to. */
  function AsksOf(b: Backends, id: SubId, before: Sub, after: Sub): seq<Ask>
  {
    if before.source == after.source || !b.Has(after.source) then []
    else [Ask(id, after.kind, after.source, after.active.Some?)]
  }

  /** Moving one subscription as its calls say keeps every subscription served. */
  lemma MoveServed(
    b: Backends, subs: map<SubId, Sub>, live: set<SubId>, asked: seq<Ask>, id: SubId, after: Sub)
    requires AllServed(b, subs, live, asked) && id in subs && after.kind == subs[id].kind
    requires after.source != subs[id].source
    requires !b.Has(after.source) ==> after.active == None
    requires after.source == LAN && b.lan ==> after.active.Some?
    ensures AllServed(b, subs[id := after], live, asked + AsksOf(b, id, subs[id], after))
  {
    var a := Ask(id, after.kind, after.source, after.active.Some?);
    assert asked + [] == asked;
    forall k | k in live && k in subs[id := after]
      ensures Served(b, subs[id := after][k], LastAsk(asked + AsksOf(b, id, subs[id], after), k))
    {
      LastAskSnoc(asked, a, k);
    }
  }

  /** Every live subscription sits on its device's push source. */
  ghost predicate Bound(devices: Devices, subs: map<SubId, Sub>, live: set<SubId>)
  {
    live <= subs.Keys && forall id :: id in live ==> subs[id].source == SourceOf(devices, subs[id].did)
  }

  predicate InUse(subs: map<SubId, Sub>, live: set<SubId>, handles: seq<Handle>, h: HandleId)
    requires h < |handles|
  {
    handles[h].sub in live && handles[h].sub in subs && subs[handles[h].sub].active == Some(h)
  }

  /**
    The handle account: the active handle of a live subscription is open and belongs to its
    source, and every other handle ever handed out has been closed exactly once.
  */
  ghost predicate Accounted(subs: map<SubId, Sub>, live: set<SubId>, handles: seq<Handle>, next: SubId)
  {
    && live <= subs.Keys
    && (forall id :: id in subs ==> id < next)
    && (forall id :: id in subs && subs[id].active.Some? ==>
          var h := subs[id].active.value;
          h < |handles| && handles[h].sub == id && handles[h].source == subs[id].source && subs[id].source != "")
    && (forall h :: 0 <= h < |handles| ==>
          handles[h].sub in subs && handles[h].closes == if InUse(subs, live, handles, h) then 0 else 1)
  }

  /** Handles of one subscription that were opened and not yet closed. */
  function OpenHandles(handles: seq<Handle>, id: SubId): set<HandleId>
  {
    set h | 0 <= h < |handles| && handles[h].sub == id && handles[h].closes == 0
  }

  /**
    Opened minus closed is one when a live subscription is active and zero otherwise: none leaks and none
    doubles up.
  */
  lemma OpenIffActive(subs: map<SubId, Sub>, live: set<SubId>, handles: seq<Handle>, next: SubId, id: SubId)
    requires Accounted(subs, live, handles, next) && id in subs
    ensures OpenHandles(handles, id) == if id in live && subs[id].active.Some? then {subs[id].active.value} else {}
  {
    forall h | h in OpenHandles(handles, id)
      ensures id in live && subs[id].active == Some(h)
    {
      assert InUse(subs, live, handles, h);
    }
    if id in live && subs[id].active.Some? {
      assert InUse(subs, live, handles, subs[id].active.value);
    }
  }

  function Closed(handles: seq<Handle>, active: Option<HandleId>): seq<Handle>
  {
    if active.Some? && active.value < |handles|
    then handles[active.value := handles[active.value].(closes := handles[active.value].closes + 1)]
    else handles
  }

  /** Moving one subscription: its old handle is closed once and the new one, if any, is recorded. */
  lemma MoveAccounted(
    subs: map<SubId, Sub>, live: set<SubId>, handles: seq<Handle>, next: SubId,
    id: SubId, source: string, given: Option<HandleId>, handles': seq<Handle>)
    requires Accounted(subs, live, handles, next) && id in live
    requires var closed := Closed(handles, subs[id].active);
             match given
             case None => handles' == closed
             case Some(h) => source != "" && h == |handles| && handles' == closed + [Handle(id, source, 0)]
    ensures Accounted(subs[id := subs[id].(source := source, active := given)], live, handles', next)
  {
    var subs' := subs[id := subs[id].(source := source, active := given)];
    forall h | 0 <= h < |handles'|
      ensures handles'[h].sub in subs' && handles'[h].closes == if InUse(subs', live, handles', h) then 0 else 1
    {
      if h < |handles| {
        assert handles[h].sub in subs && handles[h].closes == if InUse(subs, live, handles, h) then 0 else 1;
      }
    }
  }

  /** Dropping one live subscription and closing its handle. */
  lemma DropAccounted(subs: map<SubId, Sub>, live: set<SubId>, handles: seq<Handle>, next: SubId, id: SubId)
    requires Accounted(subs, live, handles, next) && id in live
    ensures Accounted(subs, live - {id}, Closed(handles, subs[id].active), next)
  {
    var handles' := Closed(handles, subs[id].active);
    forall h | 0 <= h < |handles'|
      ensures handles'[h].sub in subs && handles'[h].closes == if InUse(subs, live - {id}, handles', h) then 0 else 1
    {
      assert handles[h].sub in subs && handles[h].closes == if InUse(subs, live, handles, h) then 0 else 1;
    }
  }

  /** The live subscriptions of one device and kind. */
  function OfKind(subs: map<SubId, Sub>, live: set<SubId>, did: Did, kind: Kind): set<SubId>
  {
    set id | id in live && id in subs && subs[id].did == did && subs[id].kind == kind
  }

  /** Only subscriptions in `touched` have changed, none its device or kind, and those in `settled` are on `source`. */
  ghost predicate Moved(
    before: map<SubId, Sub>, after: map<SubId, Sub>, touched: set<SubId>, settled: set<SubId>, source: string)
  {
    && after.Keys == before.Keys
    && (forall id :: id in after ==> after[id].did == before[id].did && after[id].kind == before[id].kind)
    && (forall id :: id in after && id !in touched ==> after[id] == before[id])
    && (forall id :: id in after && id in settled ==> after[id].source == source)
  }

  /** The calls made for one subscription, in order. */
  function AskedFor(asked: seq<Ask>, id: SubId): seq<Ask>
  {
    if asked == [] then []
    else
      var n := |asked| - 1;
      AskedFor(asked[..n], id) + (if asked[n].sub == id then [asked[n]] else [])
  }

  /** Each subscription that ended on another source with a backend asked that backend once; no other asked anything. */
  ghost predicate AskedOnce(
    b: Backends, before: map<SubId, Sub>, after: map<SubId, Sub>, askedBefore: seq<Ask>, askedAfter: seq<Ask>)
  {
    && before.Keys == after.Keys
    && forall id :: id in after ==>
         AskedFor(askedAfter, id) == AskedFor(askedBefore, id) + AsksOf(b, id, before[id], after[id])
  }

  /** What changed has reached its device's push source, and what was there already has not changed. */
  ghost predicate Steady(devices: Devices, before: map<SubId, Sub>, after: map<SubId, Sub>)
  {
    && before.Keys == after.Keys
    && forall id :: id in after ==>
         && after[id].did == before[id].did
         && (after[id] != before[id] ==> after[id].source == SourceOf(devices, after[id].did))
         && (before[id].source == SourceOf(devices, before[id].did) ==> after[id] == before[id])
  }

  lemma AskedForAppend(asked: seq<Ask>, more: seq<Ask>, id: SubId)
    requires |more| <= 1
    ensures AskedFor(asked + more, id) == AskedFor(asked, id) + (if more != [] && more[0].sub == id then more else [])
  {
    if more == [] {
      assert asked + more == asked;
    } else {
      assert (asked + more)[..|asked|] == asked;
      assert more == [more[0]];
    }
  }

  lemma AskedNothing(b: Backends, devices: Devices, subs: map<SubId, Sub>, asked: seq<Ask>)
    ensures AskedOnce(b, subs, subs, asked, asked) && Steady(devices, subs, subs)
  {
  }

  lemma AskedStep(
    b: Backends, devices: Devices, before: map<SubId, Sub>, after: map<SubId, Sub>,
    askedBefore: seq<Ask>, askedAfter: seq<Ask>, id: SubId)
    requires before.Keys == after.Keys && id in after && (forall k :: k in after && k != id ==> after[k] == before[k])
    requires after[id].did == before[id].did && after[id].source == SourceOf(devices, after[id].did)
    requires before[id].source == after[id].source ==> after[id] == before[id]
    requires askedAfter == askedBefore + AsksOf(b, id, before[id], after[id])
    ensures AskedOnce(b, before, after, askedBefore, askedAfter) && Steady(devices, before, after)
  {
    hide SourceOf, AskedFor;
    forall k | k in after
      ensures AskedFor(askedAfter, k) == AskedFor(askedBefore, k) + AsksOf(b, k, before[k], after[k])
    {
      AskedForAppend(askedBefore, AsksOf(b, id, before[id], after[id]), k);
    }
  }

  /** A subscription moves in at most one of two passes over an unchanged registry. */
  lemma AskedCompose(
    b: Backends, devices: Devices, s0: map<SubId, Sub>, s1: map<SubId, Sub>, s2: map<SubId, Sub>,
    a0: seq<Ask>, a1: seq<Ask>, a2: seq<Ask>)
    requires AskedOnce(b, s0, s1, a0, a1) && Steady(devices, s0, s1)
    requires AskedOnce(b, s1, s2, a1, a2) && Steady(devices, s1, s2)
    ensures AskedOnce(b, s0, s2, a0, a2) && Steady(devices, s0, s2)
  {
    hide SourceOf, AskedFor;
    forall id | id in s2
      ensures AskedFor(a2, id) == AskedFor(a0, id) + AsksOf(b, id, s0[id], s2[id])
    {
      if s0[id] == s1[id] {
        assert AskedFor(a0, id) + [] == AskedFor(a0, id);
      } else {
        assert s1[id] == s2[id];
        assert AskedFor(a1, id) + [] == AskedFor(a1, id);
      }
    }
  }

  lemma MovedNothing(subs: map<SubId, Sub>, touched: set<SubId>, source: string)
    ensures Moved(subs, subs, touched, {}, source)
  {
  }

  lemma MovedFacts(
    before: map<SubId, Sub>, after: map<SubId, Sub>, touched: set<SubId>, settled: set<SubId>, source: string)
    requires Moved(before, after, touched, settled, source)
    ensures after.Keys == before.Keys
    ensures forall id :: id in after ==> after[id].did == before[id].did && after[id].kind == before[id].kind
  {
  }

  lemma MovedStep(
    s0: map<SubId, Sub>, s1: map<SubId, Sub>, s2: map<SubId, Sub>,
    touched: set<SubId>, settled: set<SubId>, id: SubId, source: string)
    requires Moved(s0, s1, touched, settled, source) && id in touched && id in s2
    requires s2.Keys == s1.Keys && forall k :: k in s2 && k != id ==> s2[k] == s1[k]
    requires s2[id].did == s1[id].did && s2[id].kind == s1[id].kind && s2[id].source == source
    ensures Moved(s0, s2, touched, settled + {id}, source)
  {
  }

  class Client {
    const mode: Mode
    const backends: Backends

    var devices: Devices
    var subs: map<SubId, Sub>
    /** The keys of `propSubs` and `eventSubs`. */
    var live: set<SubId>
    var nextSubId: SubId
    var handles: seq<Handle>
    ghost var log: seq<Note>
    /** Every call that asked a backend to subscribe. */
    ghost var asked: seq<Ask>

    ghost predicate Valid()
      reads this
    {
      && Aggregated(mode, devices)
      && Replayed(log, devices)
      && Bound(devices, subs, live)
      && Accounted(subs, live, handles, nextSubId)
      && AllServed(backends, subs, live, asked)
    }

    constructor (mode: Mode, backends: Backends)
      ensures Valid() && devices == map[] && live == {} && log == [] && asked == []
      ensures this.mode == mode && this.backends == backends
    {
      this.mode, this.backends := mode, backends;
      devices, subs, live, nextSubId, handles := map[], map[], {}, 0, [];
      log, asked := [], [];
    }

    // -------------------------------------------------------------- subscriptions

    /** Calls a backend, which may fail or yield no handle; the LAN always gives one. */
    method AskBackend(id: SubId, kind: Kind, source: string) returns (given: bool)
      modifies this`asked
      ensures asked == old(asked) + [Ask(id, kind, source, given)]
      ensures source == LAN ==> given
    {
      given := *;
      if source == LAN {
        given := true;
      }
      asked := asked + [Ask(id, kind, source, given)];
    }

    /** A backend that exists is asked once, and the handle it gives is recorded; any other source gives none. */
    method SubscribeFromSource(id: SubId, kind: Kind, source: string) returns (active: Option<HandleId>)
      modifies this`handles, this`asked
      ensures asked ==
              old(asked) + (if backends.Has(source) then [Ask(id, kind, source, active.Some?)] else [])
      ensures !backends.Has(source) ==> active == None
      ensures source == LAN && backends.lan ==> active.Some?
      ensures match active
              case None => handles == old(handles)
              case Some(h) => h == |old(handles)| && handles == old(handles) + [Handle(id, source, 0)]
    {
      if source == "" {
        return None;
      }
      if source == CLOUD {
        if !backends.cloudPush {
          return None;
        }
      } else if source == LAN {
        if !backends.lan {
          return None;
        }
      } else if source !in backends.routes {
        return None;
      }
      var given := AskBackend(id, kind, source);
      if !given {
        return None;
      }
      active := Some(|handles|);
      handles := handles + [Handle(id, source, 0)];
    }

    method CloseHandle(active: Option<HandleId>)
      modifies this`handles
      ensures handles == Closed(old(handles), active)
    {
      if active.Some? && active.value < |handles| {
        handles := handles[active.value := handles[active.value].(closes := handles[active.value].closes + 1)];
      }
    }

    /**
      The subscription ends on its device's push source: untouched if it was there already, and otherwise its old
      handle is closed and the new source's backend, if there is one, is asked once.
    */
    method Rebind(id: SubId)
      requires id in live && Accounted(subs, live, handles, nextSubId) && AllServed(backends, subs, live, asked)
      modifies this`subs, this`handles, this`asked
      ensures Accounted(subs, live, handles, nextSubId) && AllServed(backends, subs, live, asked)
      ensures subs.Keys == old(subs).Keys && (forall k :: k in subs && k != id ==> subs[k] == old(subs)[k])
      ensures subs[id].did == old(subs)[id].did && subs[id].kind == old(subs)[id].kind
      ensures subs[id].source == SourceOf(devices, subs[id].did)
      ensures old(subs)[id].source == subs[id].source ==> subs == old(subs) && handles == old(handles)
      ensures asked == old(asked) + AsksOf(backends, id, old(subs)[id], subs[id])
    {
      hide AllServed;
      var source := SourceOf(devices, subs[id].did);
      if subs[id].source == source {
        assert asked + [] == asked;
        return;
      }
      CloseHandle(subs[id].active);
      ghost var closed := handles;
      var active := SubscribeFromSource(id, subs[id].kind, source);
      MoveAccounted(subs, live, old(handles), nextSubId, id, source, active, handles);
      MoveServed(backends, subs, live, old(asked), id, subs[id].(source := source, active := active));
      subs := subs[id := subs[id].(source := source, active := active)];
    }

    /** One pass over the property or the event subscriptions of a device. */
    method RebindKind(did: Did, kind: Kind)
      requires Accounted(subs, live, handles, nextSubId) && AllServed(backends, subs, live, asked)
      modifies this`subs, this`handles, this`asked
      ensures Accounted(subs, live, handles, nextSubId) && AllServed(backends, subs, live, asked)
      ensures var all := OfKind(old(subs), live, did, kind);
              Moved(old(subs), subs, all, all, SourceOf(devices, did))
      ensures AskedOnce(backends, old(subs), subs, old(asked), asked)
      ensures Steady(devices, old(subs), subs)
    {
      hide Accounted, SourceOf, AllServed, AskedOnce, Steady, Moved;
      var all := OfKind(subs, live, did, kind);
      var todo := all;
      AskedNothing(backends, devices, subs, asked);
      MovedNothing(subs, all, SourceOf(devices, did));
      assert all - todo == {};
      while todo != {}
        invariant todo <= all
        invariant Accounted(subs, live, handles, nextSubId) && AllServed(backends, subs, live, asked)
        invariant Moved(old(subs), subs, all, all - todo, SourceOf(devices, did))
        invariant AskedOnce(backends, old(subs), subs, old(asked), asked) && Steady(devices, old(subs), subs)
        decreases |todo|
      {
        var id :| id in todo;
        ghost var before, askedBefore := subs, asked;
        MovedFacts(old(subs), before, all, all - todo, SourceOf(devices, did));
        Rebind(id);
        MovedStep(old(subs), before, subs, all, all - todo, id, SourceOf(devices, did));
        assert all - (todo - {id}) == (all - todo) + {id};
        AskedStep(backends, devices, before, subs, askedBefore, asked, id);
        AskedCompose(backends, devices, old(subs), before, subs, old(asked), askedBefore, asked);
        todo := todo - {id};
      }
      assert all - todo == all;
    }

    method RebindSubscriptionsForDevice(did: Did)
      requires Accounted(subs, live, handles, nextSubId) && AllServed(backends, subs, live, asked)
      modifies this`subs, this`handles, this`asked
      ensures Accounted(subs, live, handles, nextSubId) && AllServed(backends, subs, live, asked)
      ensures subs.Keys == old(subs).Keys
      ensures forall id :: id in subs ==> subs[id].did == old(subs)[id].did
      ensures forall id :: id in live && subs[id].did == did ==> subs[id].source == SourceOf(devices, did)
      ensures forall id :: id in subs && !(id in live && subs[id].did == did) ==> subs[id] == old(subs)[id]
      ensures AskedOnce(backends, old(subs), subs, old(asked), asked)
      ensures Steady(devices, old(subs), subs)
    {
      assert live <= subs.Keys;
      hide Accounted, SourceOf, AllServed, AskedOnce, Steady;
      RebindKind(did, Property);
      ghost var middle, askedMiddle := subs, asked;
      RebindKind(did, Event);
      AskedCompose(backends, devices, old(subs), middle, subs, old(asked), askedMiddle, asked);
    }

    /** `None` when the device is unknown. */
    method Subscribe(kind: Kind, did: Did) returns (id: Option<SubId>)
      requires Valid()
      modifies this`subs, this`live, this`handles, this`nextSubId, this`asked
      ensures Valid()
      ensures id.Some? <==> did in devices
      ensures id.Some? ==>
              && id.value !in old(subs) && live == old(live) + {id.value}
              && subs[id.value].did == did && subs[id.value].kind == kind
              && asked == old(asked) + AsksOf(backends, id.value, Sub(kind, did, "", None), subs[id.value])
      ensures id == None ==> subs == old(subs) && live == old(live) && handles == old(handles) && asked == old(asked)
    {
      hide Accounted, AllServed, Aggregated, Replayed, SourceOf;
      if did !in devices {
        return None;
      }
      var created := nextSubId;
      nextSubId := nextSubId + 1;
      AddAccounted(subs, live, handles, created, Sub(kind, did, "", None));
      AddServed(backends, subs, live, asked, created, Sub(kind, did, "", None));
      subs := subs[created := Sub(kind, did, "", None)];
      live := live + {created};
      Rebind(created);
      id := Some(created);
    }

    /**
      The subscription's own close function. It takes the subscription off the registry and closes
      its handle, every time it is called: called once on a live subscription it keeps the
      account, called again it closes the same handle again.
    */
    method CloseSubscription(id: SubId)
      requires Valid() && id in subs
      modifies this`live, this`handles
      ensures live == old(live) - {id} && handles == Closed(old(handles), subs[id].active)
      ensures Valid() <==> id in old(live) || subs[id].active == None
    {
      if id in live {
        DropAccounted(subs, live, handles, nextSubId, id);
      }
      live := live - {id};
      CloseHandle(subs[id].active);
      if id !in old(live) && subs[id].active.Some? {
        assert !InUse(subs, live, handles, subs[id].active.value);
      }
    }

    /** Closing the client closes every live subscription. */
    method CloseAll()
      requires Valid()
      modifies this`live, this`handles
      ensures Valid() && live == {}
      ensures forall h :: 0 <= h < |handles| ==> handles[h].closes == 1
    {
      while live != {}
        invariant Valid()
        decreases |live|
      {
        var id :| id in live;
        CloseSubscription(id);
      }
      forall h | 0 <= h < |handles|
        ensures handles[h].closes == 1
      {
        assert !InUse(subs, live, handles, h);
      }
    }

    // -------------------------------------------------------------- changes

    method HandleChanges(changes: seq<Change>)
      requires Aggregated(mode, devices) && Replayed(log + Notes(changes), devices)
      requires Accounted(subs, live, handles, nextSubId) && AllServed(backends, subs, live, asked)
      requires forall id :: id in live ==>
               subs[id].source == SourceOf(devices, subs[id].did) || Marked(changes, subs[id].did)
      modifies this`subs, this`handles, this`log, this`asked
      ensures Valid() && log == old(log) + Notes(changes)
      ensures AskedOnce(backends, old(subs), subs, old(asked), asked)
    {
      hide Aggregated, Replayed, Marked, Notes, SourceOf, LastState, NoRepeats, AllServed, AskedOnce, Steady;
      AskedNothing(backends, devices, subs, asked);
      NotesNone();
      var i := 0;
      assert changes[0..] == changes && changes[..0] == [];
      while i < |changes|
        invariant 0 <= i <= |changes|
        invariant Accounted(subs, live, handles, nextSubId) && AllServed(backends, subs, live, asked)
        invariant AskedOnce(backends, old(subs), subs, old(asked), asked) && Steady(devices, old(subs), subs)
        invariant log == old(log) + Notes(changes[..i])
        invariant forall id :: id in live ==>
          subs[id].source == SourceOf(devices, subs[id].did) || Marked(changes[i..], subs[id].did)
      {
        var change := changes[i];
        MarkedTail(changes, i);
        assert changes[..i + 1] == changes[..i] + [change];
        NotesSnoc(changes[..i], change);
        if change.sourceChanged {
          ghost var before, askedBefore := subs, asked;
          RebindSubscriptionsForDevice(change.did);
          AskedCompose(backends, devices, old(subs), before, subs, old(asked), askedBefore, asked);
        }
        if change.stateChanged {
          log := log + [Note(change.did, change.newState)];
        }
        i := i + 1;
      }
      assert changes[..i] == changes;
      NothingMarked(changes[i..]);
    }

    /** Rewrites the entries of some devices in any order, recording what changed. */
    method UpdateEach(dids: set<Did>, f: (Did, Entry) -> Entry) returns (changes: seq<Change>)
      modifies this`devices
      ensures devices == Updated(mode, old(devices), dids, f)
      ensures Explains(old(devices), changes, devices)
    {
      hide Explains, Recompute, Updated, ChangeOf;
      changes := [];
      ExplainsNothing(devices);
      UpdatedNone(mode, devices, f);
      var todo := dids;
      assert dids - todo == {};
      while todo != {}
        invariant todo <= dids
        invariant devices == Updated(mode, old(devices), dids - todo, f)
        invariant Explains(old(devices), changes, devices)
        decreases |todo|
      {
        var did :| did in todo;
        var entry := Recompute(mode, f(did, EntryOf(devices, did)));
        UpdatedSnoc(mode, old(devices), dids - todo, did, f);
        ExplainsStep(old(devices), changes, devices, did, entry);
        assert dids - (todo - {did}) == dids - todo + {did};
        changes := changes + [ChangeOf(did, EntryOf(devices, did), entry)];
        devices := devices[did := entry];
        todo := todo - {did};
      }
      assert dids - {} == dids;
    }

    /** The end of every refresh: the registry has moved from `before` as `changes` explain. */
    method Finish(ghost before: Devices, changes: seq<Change>)
      requires Replayed(log, before) && Bound(before, subs, live) && Accounted(subs, live, handles, nextSubId)
      requires AllServed(backends, subs, live, asked)
      requires Aggregated(mode, devices) && Explains(before, changes, devices)
      modifies this`subs, this`handles, this`log, this`asked
      ensures Valid() && log == old(log) + Notes(changes)
      ensures AskedOnce(backends, old(subs), subs, old(asked), asked)
    {
      ReplayedAfter(log, before, changes, devices);
      hide Aggregated, Replayed, Accounted, AllServed, AskedOnce;
      HandleChanges(changes);
    }

    method RefreshCloudDevices(snapshot: map<Did, CloudInfo>)
      requires Valid()
      modifies this`devices, this`subs, this`handles, this`log, this`asked
      ensures Valid() && devices == Step(mode, old(devices), RefreshCloud(snapshot))
      ensures AskedOnce(backends, old(subs), subs, old(asked), asked)
    {
      hide Explains, Aggregated, Replayed, Bound, Accounted, AllServed, AskedOnce;
      ghost var before := devices;
      StepAggregated(mode, devices, RefreshCloud(snapshot));
      CloudTwoPasses(mode, devices, snapshot);
      var gone := UpdateEach(CloudDids(devices), Absent);
      ghost var middle := devices;
      var listed := UpdateEach(snapshot.Keys, FromCloud(snapshot));
      ExplainsCompose(before, gone, middle, listed, devices);
      Finish(before, gone + listed);
    }

    method RefreshCloudDevicesByDID(dids: set<Did>, details: map<Did, CloudInfo>)
      requires Valid()
      modifies this`devices, this`subs, this`handles, this`log, this`asked
      ensures Valid() && devices == Step(mode, old(devices), RefreshDetails(dids, details))
      ensures AskedOnce(backends, old(subs), subs, old(asked), asked)
    {
      hide Explains, Aggregated, Replayed, Bound, Accounted, AllServed, AskedOnce;
      ghost var before := devices;
      StepAggregated(mode, devices, RefreshDetails(dids, details));
      var changes := UpdateEach(Unique(dids), FromDetails(details));
      Finish(before, changes);
    }

    method HandleCloudDisconnected()
      requires Valid()
      modifies this`devices, this`subs, this`handles, this`log, this`asked
      ensures Valid() && devices == Step(mode, old(devices), LoseCloud)
      ensures AskedOnce(backends, old(subs), subs, old(asked), asked)
    {
      hide Explains, Aggregated, Replayed, Bound, Accounted, AllServed, AskedOnce;
      ghost var before := devices;
      StepAggregated(mode, devices, LoseCloud);
      var changes := UpdateEach(CloudOnlineDids(devices), CloudDown);
      Finish(before, changes);
    }

    method HandleCloudDeviceState(did: Did, state: DeviceState)
      requires Valid()
      modifies this`devices, this`subs, this`handles, this`log, this`asked
      ensures Valid() && devices == Step(mode, old(devices), ReportCloud(did, state))
      ensures AskedOnce(backends, old(subs), subs, old(asked), asked)
    {
      hide Explains, Aggregated, Replayed, Bound, Accounted, AllServed, AskedOnce;
      ghost var before := devices;
      StepAggregated(mode, devices, ReportCloud(did, state));
      var changes := UpdateEach(if did in devices then {did} else {}, FromReport(state));
      Finish(before, changes);
    }

    /** Devices already in the group first, then those the list adds to it. */
    method UpdateGatewayDevices(groupId: string, items: map<Did, GatewayInfo>)
      requires Valid()
      modifies this`devices, this`subs, this`handles, this`log, this`asked
      ensures Valid() && devices == Step(mode, old(devices), UpdateGateway(groupId, items))
      ensures AskedOnce(backends, old(subs), subs, old(asked), asked)
    {
      hide Explains, Aggregated, Replayed, Bound, Accounted, AllServed, AskedOnce;
      ghost var before := devices;
      StepAggregated(mode, devices, UpdateGateway(groupId, items));
      var group := GroupDids(devices, groupId);
      DisjointPasses(mode, devices, group, items.Keys, FromGateway(groupId, items));
      var known := UpdateEach(group, FromGateway(groupId, items));
      ghost var middle := devices;
      var added := UpdateEach(items.Keys - group, FromGateway(groupId, items));
      ExplainsCompose(before, known, middle, added, devices);
      Finish(before, known + added);
    }

    method UpdateLANDevices(items: map<Did, LanInfo>)
      requires Valid()
      modifies this`devices, this`subs, this`handles, this`log, this`asked
      ensures Valid() && devices == Step(mode, old(devices), UpdateLan(items))
      ensures AskedOnce(backends, old(subs), subs, old(asked), asked)
    {
      hide Explains, Aggregated, Replayed, Bound, Accounted, AllServed, AskedOnce;
      ghost var before := devices;
      StepAggregated(mode, devices, UpdateLan(items));
      var existing := devices.Keys;
      DisjointPasses(mode, devices, existing, items.Keys, FromLan(items));
      var known := UpdateEach(existing, FromLan(items));
      ghost var middle := devices;
      var added := UpdateEach(items.Keys - existing, FromLan(items));
      ExplainsCompose(before, known, middle, added, devices);
      Finish(before, known + added);
    }

    method Refresh(op: Op)
      requires Valid()
      modifies this`devices, this`subs, this`handles, this`log, this`asked
      ensures Valid() && devices == Step(mode, old(devices), op)
      ensures AskedOnce(backends, old(subs), subs, old(asked), asked)
    {
      hide Step, Aggregated, Replayed, Bound, Accounted, AllServed, AskedOnce;
      match op {
        case RefreshCloud(snapshot) => RefreshCloudDevices(snapshot);
        case RefreshDetails(dids, details) => RefreshCloudDevicesByDID(dids, details);
        case LoseCloud => HandleCloudDisconnected();
        case ReportCloud(did, state) => HandleCloudDeviceState(did, state);
        case UpdateGateway(groupId, items) => UpdateGatewayDevices(groupId, items);
        case UpdateLan(lans) => UpdateLANDevices(lans);
      }
    }

    /** Closing a subscription that is gone, but whose record still names a handle, closes that handle again. */
    predicate ClosesAgain(id: SubId)
      reads this`subs, this`live
    {
      id in subs && id !in live && subs[id].active != None
    }

    /**
      Any sequence of refreshes, connection changes, subscribes, closes of subscriptions and closes of the
      client, up to the first close that would close a handle again: all of the above holds at every rest state.
    */
    method Perform(actions: seq<Action>) returns (done: nat)
      requires Valid()
      modifies this
      ensures Valid() && done <= |actions|
      ensures done < |actions| ==> actions[done].CloseOne? && ClosesAgain(actions[done].id)
      ensures devices == Folded(mode, old(devices), Refreshes(actions[..done]))
    {
      hide Step, Aggregated, Replayed, Bound, Accounted, AllServed, AskedOnce;
      done := 0;
      while done < |actions|
        invariant done <= |actions| && Valid()
        invariant devices == Folded(mode, old(devices), Refreshes(actions[..done]))
        decreases |actions| - done
      {
        RefreshesSnoc(actions[..done], actions[done]);
        assert actions[..done + 1] == actions[..done] + [actions[done]];
        match actions[done] {
          case Update(op) => Refresh(op);
          case SubscribeTo(kind, did) => var _ := Subscribe(kind, did);
          case CloseOne(id) =>
            if ClosesAgain(id) {
              return;
            }
            if id in subs {
              CloseSubscription(id);
            }
          case CloseClient => CloseAll();
        }
        done := done + 1;
      }
    }
  }

  /** What can happen to a client between two rest states. */
  datatype Action =
    | Update(op: Op)
    | SubscribeTo(kind: Kind, did: Did)
    | CloseOne(id: SubId)
    | CloseClient

  function Refreshes(actions: seq<Action>): seq<Op>
  {
    if actions == [] then []
    else
      var n := |actions| - 1;
      Refreshes(actions[..n]) + (if actions[n].Update? then [actions[n].op] else [])
  }

  lemma RefreshesSnoc(actions: seq<Action>, a: Action)
    ensures var before := Refreshes(actions);
            var after := Refreshes(actions + [a]);
            if a.Update? then after == before + [a.op] && after[..|after| - 1] == before else after == before
  {
    assert (actions + [a])[..|actions|] == actions;
  }

  lemma NotesNone()
    ensures Notes([]) == []
  {
  }

  lemma NothingMarked(changes: seq<Change>)
    requires changes == []
    ensures forall did: Did :: !Marked(changes, did)
  {
  }

  lemma MarkedTail(changes: seq<Change>, i: nat)
    requires i < |changes|
    ensures forall did :: Marked(changes[i..], did) ==>
              Marked(changes[i + 1..], did) || (changes[i].did == did && changes[i].sourceChanged)
  {
    assert changes[i..] == [changes[i]] + changes[i + 1..];
    forall did | Marked(changes[i..], did)
      ensures Marked(changes[i + 1..], did) || (changes[i].did == did && changes[i].sourceChanged)
    {
      MarkedAppend([changes[i]], changes[i + 1..], did);
    }
  }

  lemma AddAccounted(subs: map<SubId, Sub>, live: set<SubId>, handles: seq<Handle>, next: SubId, sub: Sub)
    requires Accounted(subs, live, handles, next) && sub.active == None
    ensures next !in subs
    ensures Accounted(subs[next := sub], live + {next}, handles, next + 1)
  {
    forall h | 0 <= h < |handles|
      ensures InUse(subs[next := sub], live + {next}, handles, h) == InUse(subs, live, handles, h)
    {
    }
  }

  lemma AddServed(b: Backends, subs: map<SubId, Sub>, live: set<SubId>, asked: seq<Ask>, next: SubId, sub: Sub)
    requires AllServed(b, subs, live, asked) && sub.source == "" && sub.active == None
    ensures AllServed(b, subs[next := sub], live + {next}, asked)
  {
    assert CLOUD != "" && LAN != "";
  }

  /** A live subscription of a device that the LAN pushes for holds exactly one open handle. */
  lemma LanServed(c: Client, id: SubId)
    requires c.Valid() && c.backends.lan && id in c.live && SourceOf(c.devices, c.subs[id].did) == LAN
    ensures c.subs[id].active.Some? && OpenHandles(c.handles, id) == {c.subs[id].active.value}
  {
    OpenIffActive(c.subs, c.live, c.handles, c.nextSubId, id);
    hide SourceOf, OpenHandles, Aggregated, Replayed, Accounted;
  }
}
