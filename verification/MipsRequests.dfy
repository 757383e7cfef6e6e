/**
  Matching MIPS replies to requests (mips_client.go:48-69, 88-181). Every section that holds the
  client's mutex is one step; calls into MQTT, channel operations and the gaps between locked
  sections are steps of their own, so requests, replies and closes interleave freely.
*/
module MipsRequests {
  import opened Wrappers
  import opened Bytes

  const IDS := 0x1_0000_0000

  datatype Reply = Reply(id: uint32, body: Bytes)

  /** The mutex-protected fields. A pending channel is named by the request that made it. */
  datatype Table = Table(nextId: uint32, pending: map<uint32, nat>, replySub: Option<nat>)

  function DrawId(t: Table): Table
  {
    t.(nextId := (t.nextId + 1) % IDS)
  }

  function Register(t: Table, id: uint32, request: nat): Table
  {
    t.(pending := t.pending[id := request])
  }

  function Delete(t: Table, id: uint32): Table
  {
    t.(pending := t.pending - {id})
  }

  function Lookup(t: Table, id: uint32): Option<nat>
  {
    if id in t.pending then Some(t.pending[id]) else None
  }

  /** The first subscription installed stays; a later one is refused. */
  function Install(t: Table, sub: nat): Table
  {
    if t.replySub == None then t.(replySub := Some(sub)) else t
  }

  function Cleared(t: Table): Table
  {
    t.(pending := map[], replySub := None)
  }

  /** The client object; each method is one locked section of the Go code. */
  class BaseMipsClient {
    var nextId: uint32
    var pending: map<uint32, nat>
    var replySub: Option<nat>

    ghost function View(): Table
      reads this
    {
      Table(nextId, pending, replySub)
    }

    constructor ()
      ensures View() == START.table && nextId == 1
    {
      nextId, pending, replySub := 1, map[], None;
    }

    method NextMessageId() returns (id: uint32)
      modifies this`nextId
      ensures id == old(nextId) && View() == DrawId(old(View()))
    {
      id := nextId;
      nextId := (nextId + 1) % IDS;
    }

    method AddPending(id: uint32, request: nat)
      modifies this`pending
      ensures View() == Register(old(View()), id, request)
    {
      pending := pending[id := request];
    }

    method DeletePending(id: uint32)
      modifies this`pending
      ensures View() == Delete(old(View()), id)
    {
      pending := pending - {id};
    }

    method TakePending(id: uint32) returns (request: Option<nat>)
      modifies this`pending
      ensures request == Lookup(old(View()), id) && View() == Delete(old(View()), id)
    {
      request := if id in pending then Some(pending[id]) else None;
      pending := pending - {id};
    }

    method InstallReplySub(sub: nat) returns (kept: bool)
      modifies this`replySub
      ensures View() == Install(old(View()), sub) && kept == (old(replySub) == None)
    {
      kept := replySub == None;
      if kept {
        replySub := Some(sub);
      }
    }

    method TakeAll() returns (sub: Option<nat>)
      modifies this`pending, this`replySub
      ensures sub == old(replySub) && View() == Cleared(old(View()))
    {
      sub := replySub;
      replySub := None;
      pending := map[];
    }
  }

  // ---------------------------------------------------------------- the interleaved system

  datatype Phase =
    | CheckSub | Subscribing | Installing(sub: nat)
    | Drawing | Drawn | Registered | Waiting | Abandoning
    | Returned(reply: Reply) | Failed

  /** One `Request` call; `order` counts the identifiers drawn before its own. */
  datatype Request = Request(phase: Phase, id: uint32, order: nat)

  datatype Delivery = Delivery(request: nat, reply: Reply)

  /**
    `buffers[r]` is the one-slot channel of request `r`, `sending` the replies taken off the table
    and not yet sent on, `open` the reply subscriptions not closed, `closing` those a `Close` took.
  */
  datatype World = World(
    table: Table,
    requests: seq<Request>,
    buffers: seq<seq<Reply>>,
    sending: map<nat, Delivery>,
    handlers: nat,
    drawn: nat,
    subs: nat,
    open: set<nat>,
    closing: set<nat>)

  const START := World(Table(1, map[], None), [], [], map[], 0, 0, 0, {}, {})

  datatype Event =
    | Begin
    | Check(r: nat)
    | Subscribed(r: nat) | SubscribeFailed(r: nat)
    | InstallSub(r: nat, closeFails: bool)
    | Draw(r: nat)
    | Add(r: nat)
    | Published(r: nat) | PublishFailed(r: nat)
    | Receive(r: nat)
    | Cancelled(r: nat)
    | Remove(r: nat)
    | Arrive(reply: Reply)
    | Send(h: nat)
    | CloseTable
    | CloseSub(sub: nat)

  predicate At(w: World, r: nat, phase: Phase)
  {
    r < |w.requests| && w.requests[r].phase == phase
  }

  /** When an event can happen. `Send` says nothing about room in the channel: that is proved. */
  predicate Enabled(w: World, e: Event)
  {
    |w.buffers| == |w.requests| &&
    match e
    case Begin => true
    case Check(r) => At(w, r, CheckSub)
    case Subscribed(r) => At(w, r, Subscribing)
    case SubscribeFailed(r) => At(w, r, Subscribing)
    case InstallSub(r, _) => r < |w.requests| && w.requests[r].phase.Installing?
    case Draw(r) => At(w, r, Drawing)
    case Add(r) => At(w, r, Drawn)
    case Published(r) => At(w, r, Registered)
    case PublishFailed(r) => At(w, r, Registered)
    case Receive(r) => At(w, r, Waiting) && w.buffers[r] != []
    case Cancelled(r) => At(w, r, Waiting)
    case Remove(r) => At(w, r, Abandoning)
    case Arrive(_) => true
    case Send(h) => h in w.sending && w.sending[h].request < |w.buffers|
    case CloseTable => true
    case CloseSub(s) => s in w.closing
  }

  function Move(w: World, r: nat, phase: Phase): World
    requires r < |w.requests|
  {
    w.(requests := w.requests[r := w.requests[r].(phase := phase)])
  }

  function Apply(w: World, e: Event): World
    requires Enabled(w, e)
  {
    match e
    case Begin =>
      w.(requests := w.requests + [Request(CheckSub, 0, 0)], buffers := w.buffers + [[]])
    case Check(r) => Move(w, r, if w.table.replySub != None then Drawing else Subscribing)
    case Subscribed(r) => Move(w, r, Installing(w.subs)).(subs := w.subs + 1, open := w.open + {w.subs})
    case SubscribeFailed(r) => Move(w, r, Failed)
    case InstallSub(r, closeFails) =>
      var sub := w.requests[r].phase.sub;
      if w.table.replySub == None then Move(w, r, Drawing).(table := Install(w.table, sub))
      else Move(w, r, if closeFails then Failed else Drawing).(open := w.open - {sub})
    case Draw(r) =>
      w.(table := DrawId(w.table), drawn := w.drawn + 1,
         requests := w.requests[r := Request(Drawn, w.table.nextId, w.drawn)])
    case Add(r) => Move(w, r, Registered).(table := Register(w.table, w.requests[r].id, r))
    case Published(r) => Move(w, r, Waiting)
    case PublishFailed(r) => Move(w, r, Abandoning)
    case Receive(r) => Move(w, r, Returned(w.buffers[r][0])).(buffers := w.buffers[r := w.buffers[r][1..]])
    case Cancelled(r) => Move(w, r, Abandoning)
    case Remove(r) => Move(w, r, Failed).(table := Delete(w.table, w.requests[r].id))
    case Arrive(reply) =>
      var found := Lookup(w.table, reply.id);
      w.(table := Delete(w.table, reply.id), handlers := w.handlers + 1,
         sending := if found == None then w.sending else w.sending[w.handlers := Delivery(found.value, reply)])
    case Send(h) =>
      var d := w.sending[h];
      w.(sending := w.sending - {h}, buffers := w.buffers[d.request := w.buffers[d.request] + [d.reply]])
    case CloseTable =>
      w.(table := Cleared(w.table),
         closing := if w.table.replySub == None then w.closing else w.closing + {w.table.replySub.value})
    case CloseSub(s) => w.(closing := w.closing - {s}, open := w.open - {s})
  }

  /** The state after a run of events, if each was possible when it happened. */
  function After(events: seq<Event>): Option<World>
  {
    if events == [] then Some(START)
    else
      var n := |events| - 1;
      match After(events[..n])
      case None => None
      case Some(w) => if Enabled(w, events[n]) then Some(Apply(w, events[n])) else None
  }

  // ---------------------------------------------------------------- the invariant

  function IdOf(order: nat): uint32
  {
    (1 + order) % IDS
  }

  predicate HasId(phase: Phase)
  {
    phase.Drawn? || phase.Registered? || phase.Waiting? || phase.Abandoning? || phase.Returned?
  }

  /** A request whose channel may be on the table or on its way to being filled. */
  predicate Listening(phase: Phase)
  {
    phase.Registered? || phase.Waiting? || phase.Abandoning?
  }

  ghost predicate Ids(w: World)
  {
    && |w.buffers| == |w.requests|
    && w.table.nextId == IdOf(w.drawn)
    && (forall r :: 0 <= r < |w.requests| && HasId(w.requests[r].phase) ==>
          w.requests[r].order < w.drawn && w.requests[r].id == IdOf(w.requests[r].order))
    && (forall r, s :: 0 <= r < s < |w.requests| && HasId(w.requests[r].phase) && HasId(w.requests[s].phase) ==>
          w.requests[r].order != w.requests[s].order)
  }

  /** Where a request's one reply can be: nowhere, promised by the table, being sent, or in the channel. */
  ghost predicate OnTable(w: World, r: nat)
  {
    exists id :: id in w.table.pending && w.table.pending[id] == r
  }

  ghost predicate InFlight(w: World, r: nat)
  {
    exists h :: h in w.sending && w.sending[h].request == r
  }

  ghost predicate Matching(w: World)
  {
    && |w.buffers| == |w.requests|
    && (forall id :: id in w.table.pending ==>
          var r := w.table.pending[id];
          r < |w.requests| && Listening(w.requests[r].phase) && w.requests[r].id == id && w.buffers[r] == [])
    && (forall h :: h in w.sending ==>
          var d := w.sending[h];
          h < w.handlers && d.request < |w.requests| && w.buffers[d.request] == [] &&
          (Listening(w.requests[d.request].phase) || w.requests[d.request].phase.Failed?) &&
          d.reply.id == w.requests[d.request].id && !OnTable(w, d.request))
    && (forall h, k :: h in w.sending && k in w.sending && h != k ==> w.sending[h].request != w.sending[k].request)
    && (forall r :: 0 <= r < |w.requests| && w.buffers[r] != [] ==>
          |w.buffers[r]| == 1 && w.buffers[r][0].id == w.requests[r].id &&
          (Listening(w.requests[r].phase) || w.requests[r].phase.Failed?))
    && (forall r :: 0 <= r < |w.requests| && w.requests[r].phase.Returned? ==>
          w.requests[r].phase.reply.id == w.requests[r].id)
  }

  ghost predicate Installer(w: World, sub: nat)
  {
    exists r :: 0 <= r < |w.requests| && w.requests[r].phase == Installing(sub)
  }

  ghost predicate Subs(w: World)
  {
    && (w.table.replySub != None ==> w.table.replySub.value in w.open && w.table.replySub.value !in w.closing)
    && (forall s :: s in w.open ==> s < w.subs && (w.table.replySub == Some(s) || s in w.closing || Installer(w, s)))
    && (forall s :: s in w.closing ==> s in w.open && !Installer(w, s))
    && (forall r :: 0 <= r < |w.requests| && w.requests[r].phase.Installing? ==>
          w.requests[r].phase.sub in w.open && w.table.replySub != Some(w.requests[r].phase.sub))
    && (forall r, s ::
          0 <= r < s < |w.requests| && w.requests[r].phase.Installing? && w.requests[s].phase.Installing? ==>
          w.requests[r].phase.sub != w.requests[s].phase.sub)
  }

  ghost predicate Inv(w: World)
  {
    Ids(w) && Matching(w) && Subs(w)
  }

  /** Identifiers count up from 1 and repeat exactly after 2^32 draws. */
  lemma SameIdIff(i: nat, j: nat)
    ensures IdOf(i) == (i + 1) % 0x1_0000_0000
    ensures IdOf(i) == IdOf(j) <==> i % 0x1_0000_0000 == j % 0x1_0000_0000
  {
  }

  lemma DrawIds(w: World, r: nat)
    requires Ids(w) && Enabled(w, Draw(r))
    ensures Ids(Apply(w, Draw(r)))
  {
    assert IdOf(w.drawn + 1) == (IdOf(w.drawn) + 1) % IDS;
    hide IdOf;
  }

  /** Only a draw changes who has which identifier. */
  lemma NothingDrawn(w: World, e: Event)
    requires Enabled(w, e) && !e.Draw?
    ensures var w' := Apply(w, e);
            && |w'.buffers| == |w'.requests| && w'.drawn == w.drawn && w'.table.nextId == w.table.nextId
            && forall r :: 0 <= r < |w'.requests| && HasId(w'.requests[r].phase) ==>
                 r < |w.requests| && HasId(w.requests[r].phase) &&
                 w'.requests[r].id == w.requests[r].id && w'.requests[r].order == w.requests[r].order
  {
  }

  lemma IdsKept(w: World, e: Event)
    requires Ids(w) && Enabled(w, e)
    ensures Ids(Apply(w, e))
  {
    if e.Draw? {
      DrawIds(w, e.r);
    } else {
      NothingDrawn(w, e);
      hide IdOf, Apply, Enabled;
    }
  }

  /** Table, channels and deliveries are untouched and request `r` stays as much a listener as it was. */
  lemma MovedMatching(w: World, w': World, r: nat)
    requires Matching(w) && r < |w.requests|
    requires w'.table.pending == w.table.pending && w'.buffers == w.buffers && w'.sending == w.sending
    requires w'.handlers == w.handlers
    requires |w'.requests| == |w.requests| && w'.requests == w.requests[r := w'.requests[r]]
    requires Listening(w.requests[r].phase) ==> Listening(w'.requests[r].phase) && w'.requests[r].id == w.requests[r].id
    requires !w.requests[r].phase.Failed? && !w'.requests[r].phase.Returned?
    ensures Matching(w')
  {
    forall q | 0 <= q < |w.requests| && !OnTable(w, q)
      ensures !OnTable(w', q)
    {
    }
  }

  lemma BeginMatching(w: World)
    requires Matching(w)
    ensures Matching(Apply(w, Begin))
  {
    var w' := Apply(w, Begin);
    forall q | 0 <= q < |w.requests| && !OnTable(w, q)
      ensures !OnTable(w', q)
    {
    }
  }

  lemma AddMatching(w: World, r: nat)
    requires Matching(w) && Enabled(w, Add(r))
    ensures Matching(Apply(w, Add(r)))
  {
    var w' := Apply(w, Add(r));
    forall q | 0 <= q < |w.requests| && !OnTable(w, q) && q != r
      ensures !OnTable(w', q)
    {
    }
  }

  lemma ReceiveMatching(w: World, r: nat)
    requires Matching(w) && Enabled(w, Receive(r))
    ensures Matching(Apply(w, Receive(r)))
  {
    var w' := Apply(w, Receive(r));
    forall q | 0 <= q < |w.requests| && !OnTable(w, q)
      ensures !OnTable(w', q)
    {
    }
  }

  lemma RemoveMatching(w: World, r: nat)
    requires Matching(w) && Enabled(w, Remove(r))
    ensures Matching(Apply(w, Remove(r)))
  {
    var w' := Apply(w, Remove(r));
    forall q | 0 <= q < |w.requests| && !OnTable(w, q)
      ensures !OnTable(w', q)
    {
    }
  }

  lemma ArriveMatching(w: World, reply: Reply)
    requires Matching(w) && Enabled(w, Arrive(reply))
    ensures Matching(Apply(w, Arrive(reply)))
  {
    var w' := Apply(w, Arrive(reply));
    forall q | 0 <= q < |w.requests| && !OnTable(w, q)
      ensures !OnTable(w', q)
    {
    }
    if reply.id in w.table.pending {
      var r := w.table.pending[reply.id];
      assert OnTable(w, r);
      assert !OnTable(w', r);
    }
  }

  lemma SendMatching(w: World, h: nat)
    requires Matching(w) && Enabled(w, Send(h))
    ensures Matching(Apply(w, Send(h)))
  {
    var w' := Apply(w, Send(h));
    var r := w.sending[h].request;
    forall q | 0 <= q < |w.requests| && !OnTable(w, q)
      ensures !OnTable(w', q)
    {
    }
    forall id | id in w.table.pending
      ensures w.table.pending[id] != r
    {
      assert OnTable(w, w.table.pending[id]);
    }
  }

  lemma CloseMatching(w: World)
    requires Matching(w)
    ensures Matching(Apply(w, CloseTable))
  {
    var w' := Apply(w, CloseTable);
    assert forall q :: !OnTable(w', q);
  }

  lemma CloseSubMatching(w: World, sub: nat)
    requires Matching(w) && Enabled(w, CloseSub(sub))
    ensures Matching(Apply(w, CloseSub(sub)))
  {
    var w' := Apply(w, CloseSub(sub));
    forall q | 0 <= q < |w.requests| && !OnTable(w, q)
      ensures !OnTable(w', q)
    {
    }
  }

  lemma MatchingKept(w: World, e: Event)
    requires Matching(w) && Enabled(w, e)
    ensures Matching(Apply(w, e))
  {
    hide Matching;
    match e {
      case Begin => BeginMatching(w);
      case Add(r) => AddMatching(w, r);
      case Receive(r) => ReceiveMatching(w, r);
      case Remove(r) => RemoveMatching(w, r);
      case Arrive(reply) => ArriveMatching(w, reply);
      case Send(h) => SendMatching(w, h);
      case CloseTable => CloseMatching(w);
      case CloseSub(sub) => CloseSubMatching(w, sub);
      case Check(r) => MovedMatching(w, Apply(w, e), r);
      case Subscribed(r) => MovedMatching(w, Apply(w, e), r);
      case SubscribeFailed(r) => MovedMatching(w, Apply(w, e), r);
      case InstallSub(r, _) => MovedMatching(w, Apply(w, e), r);
      case Draw(r) => MovedMatching(w, Apply(w, e), r);
      case Published(r) => MovedMatching(w, Apply(w, e), r);
      case PublishFailed(r) => MovedMatching(w, Apply(w, e), r);
      case Cancelled(r) => MovedMatching(w, Apply(w, e), r);
    }
  }

  /** A request that is not installing moves on to a phase that is not installing either. */
  lemma MovedSubs(w: World, w': World, r: nat)
    requires Subs(w) && r < |w.requests| && !w.requests[r].phase.Installing?
    requires |w'.requests| == |w.requests| && w'.requests == w.requests[r := w'.requests[r]]
    requires !w'.requests[r].phase.Installing?
    requires w'.open == w.open && w'.closing == w.closing && w'.subs == w.subs && w'.table.replySub == w.table.replySub
    ensures Subs(w')
  {
    forall s
      ensures Installer(w', s) <==> Installer(w, s)
    {
      SameInstaller(w, w', r, s);
    }
    hide Installer;
  }

  lemma SameInstaller(w: World, w': World, r: nat, s: nat)
    requires r < |w.requests| && !w.requests[r].phase.Installing?
    requires |w'.requests| == |w.requests| && w'.requests == w.requests[r := w'.requests[r]]
    requires !w'.requests[r].phase.Installing?
    ensures Installer(w', s) <==> Installer(w, s)
  {
    if Installer(w, s) {
      var q :| 0 <= q < |w.requests| && w.requests[q].phase == Installing(s);
      assert w'.requests[q].phase == Installing(s);
    }
    if Installer(w', s) {
      var q :| 0 <= q < |w'.requests| && w'.requests[q].phase == Installing(s);
      assert w.requests[q].phase == Installing(s);
    }
  }

  lemma SubscribedSubs(w: World, r: nat)
    requires Subs(w) && Enabled(w, Subscribed(r))
    ensures Subs(Apply(w, Subscribed(r)))
  {
    var w' := Apply(w, Subscribed(r));
    assert w'.requests[r].phase == Installing(w.subs);
    forall s | s in w.open && Installer(w, s)
      ensures Installer(w', s)
    {
      var q :| 0 <= q < |w.requests| && w.requests[q].phase == Installing(s);
      assert w'.requests[q].phase == Installing(s);
    }
  }

  lemma InstallSubs(w: World, r: nat, closeFails: bool)
    requires Subs(w) && Enabled(w, InstallSub(r, closeFails))
    ensures Subs(Apply(w, InstallSub(r, closeFails)))
  {
    var w' := Apply(w, InstallSub(r, closeFails));
    forall s | s in w.open && Installer(w, s) && s != w.requests[r].phase.sub
      ensures Installer(w', s)
    {
      var q :| 0 <= q < |w.requests| && w.requests[q].phase == Installing(s);
      assert w'.requests[q].phase == Installing(s);
    }
  }

  /** Steps that move no request between phases: begin, arrivals, sends and closes. */
  lemma OtherSubs(w: World, e: Event)
    requires Subs(w) && Enabled(w, e)
    requires e.Begin? || e.Arrive? || e.Send? || e.CloseTable? || e.CloseSub?
    ensures Subs(Apply(w, e))
  {
    var w' := Apply(w, e);
    forall s
      ensures Installer(w', s) <==> Installer(w, s)
    {
      if Installer(w, s) {
        var q :| 0 <= q < |w.requests| && w.requests[q].phase == Installing(s);
        assert w'.requests[q].phase == Installing(s);
      }
    }
  }

  lemma SubsKept(w: World, e: Event)
    requires Subs(w) && Enabled(w, e)
    ensures Subs(Apply(w, e))
  {
    hide Subs;
    match e {
      case Begin => OtherSubs(w, e);
      case Arrive(_) => OtherSubs(w, e);
      case Send(_) => OtherSubs(w, e);
      case CloseTable => OtherSubs(w, e);
      case CloseSub(_) => OtherSubs(w, e);
      case Subscribed(r) => SubscribedSubs(w, r);
      case InstallSub(r, closeFails) => InstallSubs(w, r, closeFails);
      case Check(r) => MovedSubs(w, Apply(w, e), r);
      case SubscribeFailed(r) => MovedSubs(w, Apply(w, e), r);
      case Draw(r) => MovedSubs(w, Apply(w, e), r);
      case Add(r) => MovedSubs(w, Apply(w, e), r);
      case Published(r) => MovedSubs(w, Apply(w, e), r);
      case PublishFailed(r) => MovedSubs(w, Apply(w, e), r);
      case Receive(r) => MovedSubs(w, Apply(w, e), r);
      case Cancelled(r) => MovedSubs(w, Apply(w, e), r);
      case Remove(r) => MovedSubs(w, Apply(w, e), r);
    }
  }

  lemma {:induction false} RunInv(events: seq<Event>)
    requires After(events).Some?
    ensures Inv(After(events).value)
  {
    if events != [] {
      var n := |events| - 1;
      RunInv(events[..n]);
      var w := After(events[..n]).value;
      IdsKept(w, events[n]);
      MatchingKept(w, events[n]);
      SubsKept(w, events[n]);
    }
  }

  // ---------------------------------------------------------------- main results

  /** In every interleaving a request that returned has a reply that carries its own identifier. */
  lemma ReturnsOwnReply(events: seq<Event>, r: nat)
    requires After(events).Some? && r < |After(events).value.requests|
    requires After(events).value.requests[r].phase.Returned?
    ensures var q := After(events).value.requests[r];
            q.phase.reply.id == q.id && q.id == IdOf(q.order)
  {
    RunInv(events);
  }

  /** Two requests carry the same identifier exactly when a multiple of 2^32 draws lies between theirs. */
  lemma SharedIdsIff(events: seq<Event>, r: nat, s: nat)
    requires After(events).Some?
    requires var w := After(events).value;
             r < |w.requests| && s < |w.requests| && HasId(w.requests[r].phase) && HasId(w.requests[s].phase)
    ensures var (p, q) := (After(events).value.requests[r], After(events).value.requests[s]);
            && (p.id == q.id <==> p.order % IDS == q.order % IDS)
            && (r != s ==> p.order != q.order)
  {
    RunInv(events);
    hide Matching, Subs, IdOf;
    var w := After(events).value;
    SameIdIff(w.requests[r].order, w.requests[s].order);
  }

  /** So requests that drew within 2^32 draws of each other have different identifiers. */
  lemma NoSharedIds(events: seq<Event>, r: nat, s: nat)
    requires After(events).Some?
    requires var w := After(events).value;
             && r < |w.requests| && s < |w.requests| && r != s
             && HasId(w.requests[r].phase) && HasId(w.requests[s].phase)
             && -IDS < w.requests[r].order - w.requests[s].order < IDS
    ensures var w := After(events).value; w.requests[r].id != w.requests[s].id
  {
    SharedIdsIff(events, r, s);
    var w := After(events).value;
    if w.requests[r].id == w.requests[s].id {
      SameRemainder(w.requests[r].order, w.requests[s].order);
    }
  }

  lemma SameRemainder(i: nat, j: nat)
    requires i % IDS == j % IDS && -IDS < i - j < IDS
    ensures i == j
  {
  }

  /** The send in the reply handler never waits: the one-slot channel is empty and nobody else sends to it. */
  lemma SendNeverBlocks(events: seq<Event>, h: nat)
    requires After(events).Some? && h in After(events).value.sending
    ensures var w := After(events).value;
            w.sending[h].request < |w.buffers| && w.buffers[w.sending[h].request] == [] && Enabled(w, Send(h))
  {
    RunInv(events);
  }

  /** Nothing is left over for a request that has returned: no table entry, no delivery, no second reply. */
  lemma AtMostOneReply(events: seq<Event>, r: nat)
    requires After(events).Some? && r < |After(events).value.requests|
    requires After(events).value.requests[r].phase.Returned?
    ensures var w := After(events).value;
            !OnTable(w, r) && !InFlight(w, r) && w.buffers[r] == []
  {
    RunInv(events);
  }

  // ---------------------------------------------------------------- who is on the table

  /**
    Whether request `r`, which drew `id`, is off the table: it has not been put there, or since then a close has emptied
    the table, a reply with its identifier has come, or another request with its identifier has been put
    in its place or has taken its own entry off.
  */
  predicate Gone(events: seq<Event>, r: nat, id: uint32)
  {
    events == [] ||
    var older := events[..|events| - 1];
    match events[|events| - 1]
    case Add(s) => s != r && (Carries(older, s, id) || Gone(older, r, id))
    case Remove(s) => Carries(older, s, id) || Gone(older, r, id)
    case Arrive(reply) => reply.id == id || Gone(older, r, id)
    case CloseTable => true
    case _ => Gone(older, r, id)
  }

  /** Request `s` has drawn `id`. */
  predicate Carries(events: seq<Event>, s: nat, id: uint32)
  {
    After(events).Some? && s < |After(events).value.requests| && After(events).value.requests[s].id == id
  }

  /** A request listens once it is on the table, and no step after that gives it another identifier. */
  lemma ListenerStep(w: World, e: Event, r: nat)
    requires Enabled(w, e)
    requires var w' := Apply(w, e); r < |w'.requests| && Listening(w'.requests[r].phase)
    ensures r < |w.requests| && w.requests[r].id == Apply(w, e).requests[r].id
    ensures !Listening(w.requests[r].phase) ==> e == Add(r)
  {
  }

  /** What each step does to the entry of a request that keeps listening. */
  lemma EntryStep(w: World, e: Event, r: nat)
    requires Matching(w) && Enabled(w, e) && r < |w.requests| && Listening(Apply(w, e).requests[r].phase)
    ensures var id := w.requests[r].id;
            Lookup(Apply(w, e).table, id) == Some(r) <==>
              match e
              case Add(s) => s == r || (w.requests[s].id != id && Lookup(w.table, id) == Some(r))
              case Remove(s) => w.requests[s].id != id && Lookup(w.table, id) == Some(r)
              case Arrive(reply) => reply.id != id && Lookup(w.table, id) == Some(r)
              case CloseTable => false
              case _ => Lookup(w.table, id) == Some(r)
  {
    hide Matching;
  }

  lemma {:induction false} EntryIff(events: seq<Event>, r: nat)
    requires After(events).Some? && r < |After(events).value.requests|
    requires Listening(After(events).value.requests[r].phase)
    ensures var w := After(events).value;
            Lookup(w.table, w.requests[r].id) == Some(r) <==> !Gone(events, r, w.requests[r].id)
  {
    if events != [] {
      var n := |events| - 1;
      var w := After(events[..n]).value;
      RunInv(events[..n]);
      ListenerStep(w, events[n], r);
      EntryStep(w, events[n], r);
      hide Inv, Matching, Enabled, Apply;
      if Listening(w.requests[r].phase) {
        EntryIff(events[..n], r);
      }
    }
  }

  /** A request that still listens is on the table exactly when nothing in the run has taken it off. */
  lemma OnTableIff(events: seq<Event>, r: nat)
    requires After(events).Some? && r < |After(events).value.requests|
    requires Listening(After(events).value.requests[r].phase)
    ensures var w := After(events).value; OnTable(w, r) <==> !Gone(events, r, w.requests[r].id)
  {
    RunInv(events);
    EntryIff(events, r);
    hide Gone;
  }

  /** A request that listens for `id` and that nothing has taken off the table. */
  predicate Awaits(events: seq<Event>, r: nat, id: uint32)
    requires After(events).Some?
  {
    var w := After(events).value;
    r < |w.requests| && Listening(w.requests[r].phase) && w.requests[r].id == id && !Gone(events, r, id)
  }

  /**
    A reply is dropped, changing no table entry, channel or delivery, exactly when no request that listens
    for its identifier has been left on the table: duplicates, late replies and unknown identifiers.
  */
  lemma DroppedIff(events: seq<Event>, reply: Reply)
    requires After(events).Some?
    ensures var w := After(events).value;
            Apply(w, Arrive(reply)) == w.(handlers := w.handlers + 1) <==>
            !exists r :: 0 <= r < |w.requests| && Awaits(events, r, reply.id)
  {
    RunInv(events);
    var w := After(events).value;
    var w' := Apply(w, Arrive(reply));
    if reply.id in w.table.pending {
      var r := w.table.pending[reply.id];
      EntryIff(events, r);
      assert Awaits(events, r, reply.id);
      assert reply.id !in w'.table.pending;
    } else {
      assert w.table.pending - {reply.id} == w.table.pending;
      forall r | 0 <= r < |w.requests| && Listening(w.requests[r].phase) && w.requests[r].id == reply.id
        ensures !Awaits(events, r, reply.id)
      {
        EntryIff(events, r);
      }
    }
  }

  /**
    After its reply came or it gave up, a request's identifier never matches again: the reply is a duplicate
    or late.
  */
  lemma FinishedNotOnTable(events: seq<Event>, r: nat)
    requires After(events).Some? && r < |After(events).value.requests|
    requires var p := After(events).value.requests[r].phase; p.Returned? || p.Failed?
    ensures !OnTable(After(events).value, r)
  {
    RunInv(events);
  }

  /** With no setup under way and no close unfinished, the only open reply subscription is the installed one. */
  lemma OneReplySubscription(events: seq<Event>)
    requires After(events).Some?
    requires var w := After(events).value;
             w.closing == {} && forall r :: 0 <= r < |w.requests| ==> !w.requests[r].phase.Installing?
    ensures var w := After(events).value;
            w.open == if w.table.replySub == None then {} else {w.table.replySub.value}
  {
    RunInv(events);
    var w := After(events).value;
    forall s | s in w.open
      ensures w.table.replySub == Some(s)
    {
      assert !Installer(w, s);
    }
  }

  lemma AfterSnoc(events: seq<Event>, e: Event)
    requires After(events).Some? && Enabled(After(events).value, e)
    ensures After(events + [e]) == Some(Apply(After(events).value, e))
  {
    assert (events + [e])[..|events|] == events;
  }

  /** A reply for a waiting request that nothing took off the table reaches it: it is taken, sent and returned. */
  lemma ReplyReaches(events: seq<Event>, r: nat, reply: Reply)
    requires After(events).Some? && Awaits(events, r, reply.id)
    requires After(events).value.requests[r].phase == Waiting
    ensures var w := After(events).value;
            var end := After(events + [Arrive(reply)] + [Send(w.handlers)] + [Receive(r)]);
            end.Some? && r < |end.value.requests| && end.value.requests[r].phase == Returned(reply)
  {
    RunInv(events);
    EntryIff(events, r);
    hide Gone, Matching, Subs, Ids;
    var w := After(events).value;
    BuffersOfRequests(events);
    AfterSnoc(events, Arrive(reply));
    var w1 := Apply(w, Arrive(reply));
    assert w1.sending[w.handlers] == Delivery(r, reply);
    AfterSnoc(events + [Arrive(reply)], Send(w.handlers));
    var w2 := Apply(w1, Send(w.handlers));
    EmptyWhileOnTable(w, r);
    assert w2.buffers[r] == [reply];
    AfterSnoc(events + [Arrive(reply)] + [Send(w.handlers)], Receive(r));
  }

  lemma BuffersOfRequests(events: seq<Event>)
    requires After(events).Some?
    ensures |After(events).value.buffers| == |After(events).value.requests|
  {
    RunInv(events);
  }

  lemma EmptyWhileOnTable(w: World, r: nat)
    requires Matching(w) && r < |w.requests| && Lookup(w.table, w.requests[r].id) == Some(r)
    ensures r < |w.buffers| && w.buffers[r] == []
  {
  }

  // ---------------------------------------------------------------- what a shared identifier costs

  /** A request put on the table takes the place of any other with its identifier, which no reply can reach any more. */
  lemma NewerDisplaces(events: seq<Event>, r: nat, s: nat)
    requires After(events).Some? && Enabled(After(events).value, Add(s)) && r != s
    requires r < |After(events).value.requests|
    requires After(events).value.requests[r].id == After(events).value.requests[s].id
    ensures Gone(events + [Add(s)], r, After(events).value.requests[r].id)
  {
    assert (events + [Add(s)])[..|events|] == events;
  }

  /** A request that gives up takes the entry of any other with its identifier off the table. */
  lemma RemoveTakesOthers(events: seq<Event>, r: nat, s: nat)
    requires After(events).Some? && Enabled(After(events).value, Remove(s))
    requires r < |After(events).value.requests|
    requires After(events).value.requests[r].id == After(events).value.requests[s].id
    ensures Gone(events + [Remove(s)], r, After(events).value.requests[r].id)
  {
    assert (events + [Remove(s)])[..|events|] == events;
  }

  /** A world in which each of some requests has drawn its identifier and none has gone further. */
  predicate AllDrawn(w: World, count: nat)
  {
    && |w.requests| == |w.buffers| == count && w.drawn == count && w.table.nextId == IdOf(count)
    && w.table.replySub != None && w.table.pending == map[]
    && forall r :: 0 <= r < count ==> w.requests[r] == Request(Drawn, IdOf(r), r)
  }

  lemma DrawOneMore(w: World, count: nat)
    requires AllDrawn(w, count)
    ensures Enabled(w, Begin)
    ensures var w1 := Apply(w, Begin);
            && Enabled(w1, Check(count))
            && var w2 := Apply(w1, Check(count));
               Enabled(w2, Draw(count)) && AllDrawn(Apply(w2, Draw(count)), count + 1)
  {
    NextId(count);
    hide IdOf;
    var w2 := Apply(Apply(w, Begin), Check(count));
    assert w2.requests == w.requests + [Request(Drawing, 0, 0)];
  }

  lemma NextId(order: nat)
    ensures IdOf(order + 1) == (IdOf(order) + 1) % IDS
  {
  }

  lemma NextDrawn(events: seq<Event>, count: nat) returns (more: seq<Event>)
    requires After(events).Some? && AllDrawn(After(events).value, count)
    ensures After(more).Some? && AllDrawn(After(more).value, count + 1)
  {
    DrawOneMore(After(events).value, count);
    hide AllDrawn, Apply, Enabled;
    AfterSnoc(events, Begin);
    more := events + [Begin];
    AfterSnoc(more, Check(count));
    more := more + [Check(count)];
    AfterSnoc(more, Draw(count));
    more := more + [Draw(count)];
  }

  /** The first request sets the reply subscription up. */
  lemma FirstSetUp() returns (w: World)
    ensures Enabled(START, Begin)
    ensures var w1 := Apply(START, Begin);
            && Enabled(w1, Check(0))
            && var w2 := Apply(w1, Check(0));
               && Enabled(w2, Subscribed(0))
               && var w3 := Apply(w2, Subscribed(0));
                  Enabled(w3, InstallSub(0, false)) && w == Apply(w3, InstallSub(0, false))
    ensures w == World(Table(1, map[], Some(0)), [Request(Drawing, 0, 0)], [[]], map[], 0, 0, 1, {0}, {})
  {
    var w1 := Apply(START, Begin);
    assert w1.requests == [Request(CheckSub, 0, 0)] && w1.buffers == [[]];
    var w2 := Apply(w1, Check(0));
    assert w2.requests == [Request(Subscribing, 0, 0)];
    var w3 := Apply(w2, Subscribed(0));
    assert w3.requests == [Request(Installing(0), 0, 0)] && w3.open == {0};
    w := Apply(w3, InstallSub(0, false));
    assert w.requests == [Request(Drawing, 0, 0)];
  }

  lemma FirstDraw(w: World)
    requires w == World(Table(1, map[], Some(0)), [Request(Drawing, 0, 0)], [[]], map[], 0, 0, 1, {0}, {})
    ensures Enabled(w, Draw(0)) && AllDrawn(Apply(w, Draw(0)), 1)
  {
    NextId(0);
    assert IdOf(0) == 1;
    assert Apply(w, Draw(0)).requests == [Request(Drawn, 1, 0)];
  }

  lemma FirstDrawn() returns (events: seq<Event>)
    ensures After(events).Some? && AllDrawn(After(events).value, 1)
  {
    var w := FirstSetUp();
    FirstDraw(w);
    assert After([]) == Some(START);
    hide AllDrawn, Apply, Enabled, After;
    AfterSnoc([], Begin);
    events := [] + [Begin];
    AfterSnoc(events, Check(0));
    events := events + [Check(0)];
    AfterSnoc(events, Subscribed(0));
    events := events + [Subscribed(0)];
    AfterSnoc(events, InstallSub(0, false));
    events := events + [InstallSub(0, false)];
    AfterSnoc(events, Draw(0));
    events := events + [Draw(0)];
  }

  lemma {:induction false} ManyDrawn(count: nat) returns (events: seq<Event>)
    requires count > 0
    ensures After(events).Some? && AllDrawn(After(events).value, count)
  {
    if count == 1 {
      events := FirstDrawn();
    } else {
      var before := ManyDrawn(count - 1);
      events := NextDrawn(before, count - 1);
    }
  }

  /** Such runs exist: after 2^32 more draws a waiting request is displaced, and its reply goes to the newer one. */
  lemma Displaced(reply: Reply) returns (events: seq<Event>, r: nat, s: nat)
    requires reply.id == IdOf(0)
    ensures After(events).Some? && r < |After(events).value.requests| && s < |After(events).value.requests| && r != s
    ensures var w := After(events).value;
            && w.requests[r].phase == Waiting && w.requests[r].id == reply.id && Gone(events, r, reply.id)
            && Awaits(events, s, reply.id)
  {
    events := ManyDrawn(IDS + 1);
    r, s := 0, IDS;
    hide Gone, AllDrawn;
    var w := After(events).value;
    DrawnAt(w, IDS + 1, r);
    DrawnAt(w, IDS + 1, s);
    SameIdIff(r, s);
    AfterSnoc(events, Add(r));
    events := events + [Add(r)];
    AfterSnoc(events, Published(r));
    events := events + [Published(r)];
    var w1 := After(events).value;
    assert w1.requests[r] == Request(Waiting, IdOf(0), 0) && w1.requests[s] == w.requests[s];
    NewerDisplaces(events, r, s);
    AfterSnoc(events, Add(s));
    events := events + [Add(s)];
    var w2 := After(events).value;
    assert Lookup(w2.table, reply.id) == Some(s);
    EntryIff(events, s);
  }

  lemma DrawnAt(w: World, count: nat, r: nat)
    requires AllDrawn(w, count) && r < count
    ensures |w.requests| == |w.buffers| == count && w.requests[r] == Request(Drawn, IdOf(r), r)
  {
  }
}
