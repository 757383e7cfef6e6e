/**
  The gate in front of LAN control (lan.go:269-286, 538-567, 679-784, 1251-1266): votes, Start
  and Close, and the presence of a central gateway decide whether the runtime runs and whether
  devices may be online. Each exported operation is one step here; LanGateRaces interleaves their sections.
*/
module LanGate {

  type Did = string

  /** `told` is every value a LAN-state subscriber that was there from the start has been given. */
  datatype Gate = Gate(
    enabled: bool, gatewayPresent: bool, running: bool, listening: bool,
    votes: map<string, bool>, online: map<Did, bool>, told: seq<bool>)

  const FRESH := Gate(true, false, false, false, map[], map[], [])

  /** What a subscriber believes; LAN control is taken to be on until told otherwise. */
  function Believed(told: seq<bool>): bool
  {
    if told == [] then true else told[|told| - 1]
  }

  function Allowed(g: Gate): bool
  {
    g.enabled && !g.gatewayPresent
  }

  /** How registering the packet listener goes: the transport may have none, and it may fail. */
  datatype Listener = NoListener | Listens | ListenFails

  function StartRuntime(g: Gate, l: Listener): Gate
  {
    if g.running || l == ListenFails then g
    else g.(running := true, listening := l == Listens)
  }

  function StopRuntime(g: Gate): Gate
  {
    g.(running := false, listening := false)
  }

  function AllOffline(g: Gate): Gate
  {
    g.(online := map did | did in g.online :: false)
  }

  function SetEnabled(g: Gate, enabled: bool): Gate
  {
    var g' := g.(enabled := enabled);
    if Allowed(g) == Allowed(g') then g' else g'.(told := g.told + [Allowed(g')])
  }

  function StartClient(g: Gate, l: Listener): Gate
  {
    var g' := SetEnabled(g, true);
    if g'.gatewayPresent then g' else StartRuntime(g', l)
  }

  function CloseClient(g: Gate): Gate
  {
    SetEnabled(AllOffline(StopRuntime(g)), false)
  }

  predicate AnyVote(votes: map<string, bool>)
  {
    exists key :: key in votes && votes[key]
  }

  function Vote(g: Gate, key: string, vote: bool, l: Listener): Gate
  {
    var votes := if key != "" then g.votes[key := vote] else g.votes;
    var g' := g.(votes := votes, enabled := AnyVote(votes));
    var g'' := if Allowed(g') then StartRuntime(g', l) else AllOffline(StopRuntime(g'));
    g''.(told := g.told + [Allowed(g')])
  }

  function SetGateway(g: Gate, present: bool, l: Listener): Gate
  {
    if g.gatewayPresent == present then g
    else
      var g' := g.(gatewayPresent := present);
      var g'' := if Allowed(g') then StartRuntime(g', l) else AllOffline(StopRuntime(g'));
      if Allowed(g) == Allowed(g') then g'' else g''.(told := g.told + [Allowed(g')])
  }

  /** Who saw the device answer: a call of the exported API, the scan loop, or the packet listener. */
  datatype Witness = Api | Scan | Packet

  function CanWitness(g: Gate, w: Witness): bool
  {
    match w
    case Api => Allowed(g)
    case Scan => g.running && g.enabled
    case Packet => g.listening
  }

  /** The device's own state machine decides `online`; the gate only decides whether it is asked. */
  function Witnessed(g: Gate, w: Witness, did: Did, online: bool): Gate
  {
    if CanWitness(g, w) then g.(online := g.online[did := online]) else g
  }

  function Deleted(g: Gate, did: Did): Gate
  {
    g.(online := g.online - {did})
  }

  // ---------------------------------------------------------------- the client's fields

  class LanGateClient {
    var enabled: bool
    var gatewayPresent: bool
    var running: bool
    var listening: bool
    var votes: map<string, bool>
    var online: map<Did, bool>
    ghost var told: seq<bool>

    ghost function View(): Gate
      reads this
    {
      Gate(enabled, gatewayPresent, running, listening, votes, online, told)
    }

    constructor ()
      ensures View() == FRESH
    {
      enabled, gatewayPresent, running, listening := true, false, false, false;
      votes, online, told := map[], map[], [];
    }

    method Start(l: Listener)
      modifies this
      ensures View() == StartClient(old(View()), l)
    {
      Enable(true);
      if gatewayPresent {
        return;
      }
      Run(l);
    }

    method Close()
      modifies this
      ensures View() == CloseClient(old(View()))
    {
      Stop();
      var _ := MarkAllDevicesOffline();
      Enable(false);
    }

    method Enable(value: bool)
      modifies this`enabled, this`told
      ensures View() == SetEnabled(old(View()), value)
    {
      var before := enabled && !gatewayPresent;
      if enabled == value {
        return;
      }
      enabled := value;
      var after := enabled && !gatewayPresent;
      if before == after {
        return;
      }
      told := told + [after];
    }

    method Run(l: Listener)
      modifies this`running, this`listening
      ensures View() == StartRuntime(old(View()), l)
    {
      if running {
        return;
      }
      running := true;
      if l == ListenFails {
        running := false;
        return;
      }
      listening := l == Listens;
    }

    method Stop()
      modifies this`running, this`listening
      ensures View() == StopRuntime(old(View()))
    {
      running := false;
      listening := false;
    }

    method MarkAllDevicesOffline() returns (dids: set<Did>)
      modifies this`online
      ensures View() == AllOffline(old(View()))
      ensures dids == set did | did in old(online) && old(online)[did]
    {
      dids := {};
      var todo := online.Keys;
      while todo != {}
        invariant todo <= old(online).Keys && online.Keys == old(online).Keys
        invariant forall did :: did in online ==> online[did] == (did in todo && old(online)[did])
        invariant dids == set did | did in old(online) && did !in todo && old(online)[did]
        decreases |todo|
      {
        var did :| did in todo;
        if online[did] {
          online := online[did := false];
          dids := dids + {did};
        }
        todo := todo - {did};
      }
    }

    method InFavour() returns (any: bool)
      ensures any == AnyVote(votes)
    {
      var todo := votes.Keys;
      while todo != {}
        invariant todo <= votes.Keys
        invariant forall k :: k in votes && k !in todo ==> !votes[k]
        decreases |todo|
      {
        var k :| k in todo;
        if votes[k] {
          return true;
        }
        todo := todo - {k};
      }
      any := false;
    }

    method VoteForLANControl(key: string, vote: bool, l: Listener)
      modifies this
      ensures View() == Vote(old(View()), key, vote, l)
    {
      if key != "" {
        votes := votes[key := vote];
      }
      var any := InFavour();
      var blocked := gatewayPresent;
      enabled := any;
      if enabled && !blocked {
        Run(l);
      } else {
        Stop();
        var _ := MarkAllDevicesOffline();
      }
      told := told + [enabled && !blocked];
    }

    method SetCentralGatewayPresent(present: bool, l: Listener)
      modifies this
      ensures View() == SetGateway(old(View()), present, l)
    {
      var before := enabled && !gatewayPresent;
      if gatewayPresent == present {
        return;
      }
      gatewayPresent := present;
      var after := enabled && !gatewayPresent;
      if after {
        Run(l);
      } else {
        Stop();
        var _ := MarkAllDevicesOffline();
      }
      if before == after {
        return;
      }
      told := told + [after];
    }
  }

  // ---------------------------------------------------------------- whole runs

  datatype Event =
    | Start(l: Listener)
    | Close
    | Cast(key: string, vote: bool, l: Listener)
    | Gateway(present: bool, l: Listener)
    | Answer(w: Witness, did: Did, online: bool)
    | Delete(did: Did)

  function Step(g: Gate, e: Event): Gate
  {
    match e
    case Start(l) => StartClient(g, l)
    case Close => CloseClient(g)
    case Cast(key, vote, l) => Vote(g, key, vote, l)
    case Gateway(present, l) => SetGateway(g, present, l)
    case Answer(w, did, online) => Witnessed(g, w, did, online)
    case Delete(did) => Deleted(g, did)
  }

  function After(events: seq<Event>): Gate
  {
    if events == [] then FRESH else Step(After(events[..|events| - 1]), events[|events| - 1])
  }

  ghost predicate Inv(g: Gate)
  {
    && (g.running ==> Allowed(g))
    && (g.listening ==> g.running)
    && (!Allowed(g) ==> forall did :: did in g.online ==> !g.online[did])
    && Believed(g.told) == Allowed(g)
  }

  lemma StepKeeps(g: Gate, e: Event)
    requires Inv(g)
    ensures Inv(Step(g, e))
  {
  }

  lemma {:induction false} RunInv(events: seq<Event>)
    ensures Inv(After(events))
  {
    if events != [] {
      RunInv(events[..|events| - 1]);
      StepKeeps(After(events[..|events| - 1]), events[|events| - 1]);
    }
  }

  /** Whether an event has the gate decide again whether to run. */
  predicate Decides(g: Gate, e: Event)
  {
    match e
    case Start(l) => l != ListenFails
    case Close => true
    case Cast(_, _, l) => l != ListenFails
    case Gateway(present, l) => present != g.gatewayPresent && l != ListenFails
    case Answer(_, _, _) => false
    case Delete(_) => false
  }

  /** After a start, a close, a vote or a gateway change the runtime runs exactly when LAN control is allowed. */
  lemma RunsIffAllowed(events: seq<Event>, e: Event)
    requires Decides(After(events), e)
    ensures After(events + [e]).running <==> Allowed(After(events + [e]))
    ensures e == Close ==> !After(events + [e]).enabled
    ensures e.Start? ==> After(events + [e]).enabled
    ensures e.Cast? ==> (After(events + [e]).enabled <==> AnyVote(After(events + [e]).votes))
  {
    assert (events + [e])[..|events|] == events;
    RunInv(events);
  }

  /** In every run, the runtime runs only where LAN control is allowed. */
  lemma RunningImpliesAllowed(events: seq<Event>)
    ensures After(events).running ==> After(events).enabled && !After(events).gatewayPresent
  {
    RunInv(events);
  }

  /** In every run, a disabled or blocked client has no online device. */
  lemma NoOnlineWhenNotAllowed(events: seq<Event>, did: Did)
    requires did in After(events).online && After(events).online[did]
    ensures After(events).enabled && !After(events).gatewayPresent
  {
    RunInv(events);
  }

  /** In every run, a subscriber believes exactly what is the case. */
  lemma SubscribersInformed(events: seq<Event>)
    ensures Believed(After(events).told) == (After(events).enabled && !After(events).gatewayPresent)
  {
    RunInv(events);
  }
}
