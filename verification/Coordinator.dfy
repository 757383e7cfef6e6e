/**
  How the MIoT client merges cloud, gateway and LAN views of a device into one state and one
  push source (client.go:904-982, 1428-1600, 1848-1903), as functions on the device registry.
*/
module Coordinator {

  type Did = string

  datatype Mode = Auto | CloudOnly

  datatype DeviceState = Online | Offline | Disable

  datatype Entry = Entry(
    groupId: string, state: DeviceState,
    cloudPresent: bool, cloudOnline: bool,
    gatewayOnline: bool, gatewayPush: bool, gatewaySpec: bool,
    lanOnline: bool, lanPush: bool,
    pushSource: string)

  type Devices = map<Did, Entry>

  const CLOUD := "cloud"
  const LAN := "lan"

  const BLANK := Entry("", Disable, false, false, false, false, false, false, false, "")

  function Aggregate(cloudPresent: bool, cloudOnline: bool, gatewayOnline: bool, lanOnline: bool): DeviceState
  {
    if !cloudPresent && !gatewayOnline && !lanOnline then Disable
    else if cloudOnline || gatewayOnline || lanOnline then Online
    else Offline
  }

  function PushSource(mode: Mode, e: Entry): string
  {
    if mode == Auto && e.gatewayOnline && e.gatewayPush && e.groupId != "" then e.groupId
    else if mode == Auto && e.lanOnline && e.lanPush then LAN
    else if e.cloudPresent && e.cloudOnline then CLOUD
    else ""
  }

  function Recompute(mode: Mode, e: Entry): Entry
  {
    e.(state := Aggregate(e.cloudPresent, e.cloudOnline, e.gatewayOnline, e.lanOnline),
       pushSource := PushSource(mode, e))
  }

  function EntryOf(devices: Devices, did: Did): Entry
  {
    if did in devices then devices[did] else BLANK
  }

  function StateOf(devices: Devices, did: Did): DeviceState
  {
    EntryOf(devices, did).state
  }

  function SourceOf(devices: Devices, did: Did): string
  {
    EntryOf(devices, did).pushSource
  }

  // ---------------------------------------------------------------- the views

  datatype CloudInfo = CloudInfo(groupId: string, online: bool)
  datatype GatewayInfo = GatewayInfo(online: bool, push: bool, spec: bool)
  datatype LanInfo = LanInfo(online: bool, push: bool)

  /** Result of applying `f` to the entries of some devices; the others keep theirs. */
  function Updated(mode: Mode, devices: Devices, dids: set<Did>, f: (Did, Entry) -> Entry): Devices
  {
    map did | did in devices.Keys + dids ::
      if did in dids then Recompute(mode, f(did, EntryOf(devices, did))) else devices[did]
  }

  function CloudEntry(snapshot: map<Did, CloudInfo>, did: Did, e: Entry): Entry
  {
    if did in snapshot
    then e.(groupId := snapshot[did].groupId, cloudPresent := true, cloudOnline := snapshot[did].online)
    else e.(cloudPresent := false)
  }

  function FromCloud(snapshot: map<Did, CloudInfo>): (Did, Entry) -> Entry
  {
    (did, e: Entry) => CloudEntry(snapshot, did, e)
  }

  function CloudDids(devices: Devices): set<Did>
  {
    set did | did in devices && devices[did].cloudPresent
  }

  /** A full cloud refresh: devices the cloud no longer lists lose only their presence flag. */
  function CloudRefreshed(mode: Mode, devices: Devices, snapshot: map<Did, CloudInfo>): Devices
  {
    Updated(mode, devices, CloudDids(devices) + snapshot.Keys, FromCloud(snapshot))
  }

  function DetailsEntry(details: map<Did, CloudInfo>, did: Did, e: Entry): Entry
  {
    if did in details
    then e.(groupId := if details[did].groupId == "" then e.groupId else details[did].groupId,
            cloudPresent := true, cloudOnline := details[did].online)
    else e.(cloudPresent := false, cloudOnline := false)
  }

  function FromDetails(details: map<Did, CloudInfo>): (Did, Entry) -> Entry
  {
    (did, e: Entry) => DetailsEntry(details, did, e)
  }

  /** A refresh of some devices passes over empty identifiers. */
  function Unique(dids: set<Did>): set<Did>
  {
    dids - {""}
  }

  function DetailsRefreshed(mode: Mode, devices: Devices, dids: set<Did>, details: map<Did, CloudInfo>): Devices
  {
    Updated(mode, devices, Unique(dids), FromDetails(details))
  }

  function CloudOnlineDids(devices: Devices): set<Did>
  {
    set did | did in devices && devices[did].cloudPresent && devices[did].cloudOnline
  }

  function CloudDown(did: Did, e: Entry): Entry
  {
    e.(cloudOnline := false)
  }

  function CloudLost(mode: Mode, devices: Devices): Devices
  {
    Updated(mode, devices, CloudOnlineDids(devices), CloudDown)
  }

  function ReportEntry(state: DeviceState, e: Entry): Entry
  {
    e.(cloudPresent := true, cloudOnline := state == Online)
  }

  function FromReport(state: DeviceState): (Did, Entry) -> Entry
  {
    (_, e: Entry) => ReportEntry(state, e)
  }

  function CloudReported(mode: Mode, devices: Devices, did: Did, state: DeviceState): Devices
  {
    Updated(mode, devices, if did in devices then {did} else {}, FromReport(state))
  }

  function GatewayEntry(groupId: string, items: map<Did, GatewayInfo>, did: Did, e: Entry): Entry
  {
    if did in items
    then e.(groupId := groupId, gatewayOnline := items[did].online, gatewayPush := items[did].push,
            gatewaySpec := items[did].spec)
    else e.(gatewayOnline := false, gatewayPush := false, gatewaySpec := false)
  }

  function FromGateway(groupId: string, items: map<Did, GatewayInfo>): (Did, Entry) -> Entry
  {
    (did, e: Entry) => GatewayEntry(groupId, items, did, e)
  }

  function GroupDids(devices: Devices, groupId: string): set<Did>
  {
    set did | did in devices && devices[did].groupId == groupId
  }

  /** One gateway's device list: devices of its group that it does not list lose their gateway flags. */
  function GatewayUpdated(mode: Mode, devices: Devices, groupId: string, items: map<Did, GatewayInfo>): Devices
  {
    Updated(mode, devices, GroupDids(devices, groupId) + items.Keys, FromGateway(groupId, items))
  }

  function LanEntry(items: map<Did, LanInfo>, did: Did, e: Entry): Entry
  {
    if did in items then e.(lanOnline := items[did].online, lanPush := items[did].push)
    else e.(lanOnline := false, lanPush := false)
  }

  function FromLan(items: map<Did, LanInfo>): (Did, Entry) -> Entry
  {
    (did, e: Entry) => LanEntry(items, did, e)
  }

  function LanUpdated(mode: Mode, devices: Devices, items: map<Did, LanInfo>): Devices
  {
    Updated(mode, devices, devices.Keys + items.Keys, FromLan(items))
  }

  // ---------------------------------------------------------------- changes and notifications

  datatype Change = Change(did: Did, stateChanged: bool, sourceChanged: bool, newState: DeviceState)

  datatype Note = Note(did: Did, state: DeviceState)

  function ChangeOf(did: Did, before: Entry, after: Entry): Change
  {
    Change(did, before.state != after.state, before.pushSource != after.pushSource, after.state)
  }

  /** The notifications that a list of changes leads to, in order. */
  function Notes(changes: seq<Change>): seq<Note>
  {
    if changes == [] then []
    else
      var c := changes[|changes| - 1];
      Notes(changes[..|changes| - 1]) + (if c.stateChanged then [Note(c.did, c.newState)] else [])
  }

  /** What a listener for one device believes after some notifications. */
  function LastState(notes: seq<Note>, did: Did, start: DeviceState): DeviceState
  {
    if notes == [] then start
    else
      var n := notes[|notes| - 1];
      if n.did == did then n.state else LastState(notes[..|notes| - 1], did, start)
  }

  /** No notification repeats what the listener already believes. */
  predicate NoRepeats(notes: seq<Note>, did: Did, start: DeviceState)
  {
    notes == [] ||
    var front, n := notes[..|notes| - 1], notes[|notes| - 1];
    NoRepeats(front, did, start) && (n.did == did ==> n.state != LastState(front, did, start))
  }

  predicate Marked(changes: seq<Change>, did: Did)
  {
    exists i :: 0 <= i < |changes| && changes[i].did == did && changes[i].sourceChanged
  }

  /** A list of changes accounts for the step from one registry to another, device by device. */
  ghost predicate Explains(before: Devices, changes: seq<Change>, after: Devices)
  {
    forall did: Did ::
      && LastState(Notes(changes), did, StateOf(before, did)) == StateOf(after, did)
      && NoRepeats(Notes(changes), did, StateOf(before, did))
      && (SourceOf(before, did) != SourceOf(after, did) ==> Marked(changes, did))
  }

  lemma ExplainsNothing(devices: Devices)
    ensures Explains(devices, [], devices)
  {
  }

  lemma NotesSnoc(changes: seq<Change>, c: Change)
    ensures Notes(changes + [c]) == Notes(changes) + (if c.stateChanged then [Note(c.did, c.newState)] else [])
  {
    assert (changes + [c])[..|changes|] == changes;
  }

  lemma MarkedSnoc(changes: seq<Change>, c: Change, did: Did)
    ensures Marked(changes + [c], did) <==> Marked(changes, did) || (c.did == did && c.sourceChanged)
  {
    assert (changes + [c])[|changes|] == c;
    if Marked(changes, did) {
      var i :| 0 <= i < |changes| && changes[i].did == did && changes[i].sourceChanged;
      assert (changes + [c])[i] == changes[i];
    }
  }

  lemma LastStateSnoc(notes: seq<Note>, n: Note, did: Did, start: DeviceState)
    ensures LastState(notes + [n], did, start) == if n.did == did then n.state else LastState(notes, did, start)
    ensures NoRepeats(notes + [n], did, start) <==>
            NoRepeats(notes, did, start) && (n.did == did ==> n.state != LastState(notes, did, start))
  {
    assert (notes + [n])[..|notes|] == notes;
  }

  /** Rewriting one entry and recording the difference keeps the account. */
  lemma ExplainsStep(before: Devices, changes: seq<Change>, middle: Devices, did: Did, e: Entry)
    requires Explains(before, changes, middle)
    ensures Explains(before, changes + [ChangeOf(did, EntryOf(middle, did), e)], middle[did := e])
  {
    var c := ChangeOf(did, EntryOf(middle, did), e);
    var notes := Notes(changes);
    NotesSnoc(changes, c);
    assert notes + [] == notes;
    hide Notes, LastState, NoRepeats, Marked;
    forall d: Did
      ensures LastState(Notes(changes + [c]), d, StateOf(before, d)) == StateOf(middle[did := e], d)
      ensures NoRepeats(Notes(changes + [c]), d, StateOf(before, d))
      ensures SourceOf(before, d) != SourceOf(middle[did := e], d) ==> Marked(changes + [c], d)
    {
      assert LastState(notes, d, StateOf(before, d)) == StateOf(middle, d);
      LastStateSnoc(notes, Note(c.did, c.newState), d, StateOf(before, d));
      MarkedSnoc(changes, c, d);
    }
  }

  lemma {:induction false} LastStateAppend(xs: seq<Note>, ys: seq<Note>, did: Did, start: DeviceState)
    ensures LastState(xs + ys, did, start) == LastState(ys, did, LastState(xs, did, start))
    ensures NoRepeats(xs + ys, did, start) <==>
            NoRepeats(xs, did, start) && NoRepeats(ys, did, LastState(xs, did, start))
    decreases |ys|
  {
    if ys == [] {
      assert xs + ys == xs;
    } else {
      var n := |ys| - 1;
      assert xs + ys == (xs + ys[..n]) + [ys[n]] && ys == ys[..n] + [ys[n]];
      LastStateAppend(xs, ys[..n], did, start);
      LastStateSnoc(xs + ys[..n], ys[n], did, start);
      LastStateSnoc(ys[..n], ys[n], did, LastState(xs, did, start));
    }
  }

  /** Folding every notification so far gives the present state of every device, and none repeats the one before. */
  ghost predicate Replayed(log: seq<Note>, devices: Devices)
  {
    forall did: Did :: LastState(log, did, Disable) == StateOf(devices, did) && NoRepeats(log, did, Disable)
  }

  lemma ReplayedAfter(log: seq<Note>, before: Devices, changes: seq<Change>, after: Devices)
    requires Replayed(log, before) && Explains(before, changes, after)
    ensures Replayed(log + Notes(changes), after)
  {
    forall did: Did
      ensures LastState(log + Notes(changes), did, Disable) == StateOf(after, did)
      ensures NoRepeats(log + Notes(changes), did, Disable)
    {
      LastStateAppend(log, Notes(changes), did, Disable);
    }
  }

  // ---------------------------------------------------------------- aggregation over whole runs

  /** Every entry's state and push source are those its flags call for. */
  ghost predicate Aggregated(mode: Mode, devices: Devices)
  {
    forall did :: did in devices ==> Recompute(mode, devices[did]) == devices[did]
  }

  lemma UpdatedAggregated(mode: Mode, devices: Devices, dids: set<Did>, f: (Did, Entry) -> Entry)
    requires Aggregated(mode, devices)
    ensures Aggregated(mode, Updated(mode, devices, dids, f))
  {
  }

  datatype Op =
    | RefreshCloud(snapshot: map<Did, CloudInfo>)
    | RefreshDetails(dids: set<Did>, details: map<Did, CloudInfo>)
    | LoseCloud
    | ReportCloud(did: Did, state: DeviceState)
    | UpdateGateway(groupId: string, items: map<Did, GatewayInfo>)
    | UpdateLan(lans: map<Did, LanInfo>)

  function Step(mode: Mode, devices: Devices, op: Op): Devices
  {
    match op
    case RefreshCloud(snapshot) => CloudRefreshed(mode, devices, snapshot)
    case RefreshDetails(dids, details) => DetailsRefreshed(mode, devices, dids, details)
    case LoseCloud => CloudLost(mode, devices)
    case ReportCloud(did, state) => CloudReported(mode, devices, did, state)
    case UpdateGateway(groupId, items) => GatewayUpdated(mode, devices, groupId, items)
    case UpdateLan(lans) => LanUpdated(mode, devices, lans)
  }

  function Folded(mode: Mode, devices: Devices, ops: seq<Op>): Devices
  {
    if ops == [] then devices else Step(mode, Folded(mode, devices, ops[..|ops| - 1]), ops[|ops| - 1])
  }

  /** The registry after a run of a fresh client. */
  function After(mode: Mode, ops: seq<Op>): Devices
  {
    Folded(mode, map[], ops)
  }

  /** The devices whose entries an operation computes again. */
  function Touched(devices: Devices, op: Op): set<Did>
  {
    match op
    case RefreshCloud(snapshot) => CloudDids(devices) + snapshot.Keys
    case RefreshDetails(dids, _) => Unique(dids)
    case LoseCloud => CloudOnlineDids(devices)
    case ReportCloud(did, _) => if did in devices then {did} else {}
    case UpdateGateway(groupId, items) => GroupDids(devices, groupId) + items.Keys
    case UpdateLan(lans) => devices.Keys + lans.Keys
  }

  function Telling(op: Op): (Did, Entry) -> Entry
  {
    match op
    case RefreshCloud(snapshot) => FromCloud(snapshot)
    case RefreshDetails(_, details) => FromDetails(details)
    case LoseCloud => CloudDown
    case ReportCloud(_, state) => FromReport(state)
    case UpdateGateway(groupId, items) => FromGateway(groupId, items)
    case UpdateLan(lans) => FromLan(lans)
  }

  lemma StepIsUpdate(mode: Mode, devices: Devices, op: Op)
    ensures Step(mode, devices, op) == Updated(mode, devices, Touched(devices, op), Telling(op))
  {
    hide Updated, FromCloud, FromDetails, FromReport, FromGateway, FromLan;
  }

  lemma StepAggregated(mode: Mode, devices: Devices, op: Op)
    requires Aggregated(mode, devices)
    ensures Aggregated(mode, Step(mode, devices, op))
  {
    hide Aggregated, Step, Updated;
    StepIsUpdate(mode, devices, op);
    UpdatedAggregated(mode, devices, Touched(devices, op), Telling(op));
  }

  /** In every run every device shows the state and push source that its flags call for. */
  lemma {:induction false} AggregatedAlways(mode: Mode, ops: seq<Op>)
    ensures Aggregated(mode, After(mode, ops))
  {
    if ops != [] {
      AggregatedAlways(mode, ops[..|ops| - 1]);
      StepAggregated(mode, After(mode, ops[..|ops| - 1]), ops[|ops| - 1]);
      hide Aggregated, Step;
    }
  }

  /** In every run a device that any backend pushes for is online. */
  lemma PushingIsOnline(mode: Mode, ops: seq<Op>, did: Did)
    requires SourceOf(After(mode, ops), did) != ""
    ensures StateOf(After(mode, ops), did) == Online
  {
    AggregatedAlways(mode, ops);
  }

  function NoGateway(e: Entry): Entry
  {
    e.(gatewayOnline := false, gatewayPush := false, gatewaySpec := false)
  }

  /**
    A disconnect is an empty list from the gateway: it takes the gateway route from exactly the devices whose
    group it still is.
  */
  lemma GatewayDisconnect(mode: Mode, ops: seq<Op>, groupId: string, did: Did)
    requires did in After(mode, ops)
    ensures var before := After(mode, ops)[did];
            After(mode, ops + [UpdateGateway(groupId, map[])])[did] ==
              if before.groupId == groupId then Recompute(mode, NoGateway(before)) else before
  {
    assert (ops + [UpdateGateway(groupId, map[])])[..|ops|] == ops;
  }

  /** A device that a cloud refresh has moved to another group keeps the route of the gateway that then disconnects. */
  lemma StaleGatewayRoute(mode: Mode, did: Did)
    ensures var ops := [UpdateGateway("g1", map[did := GatewayInfo(true, true, true)])]
                       + [RefreshCloud(map[did := CloudInfo("g2", true)])] + [UpdateGateway("g1", map[])];
            did in After(mode, ops) && After(mode, ops)[did].gatewayOnline
  {
    var listed := [UpdateGateway("g1", map[did := GatewayInfo(true, true, true)])];
    var moved := listed + [RefreshCloud(map[did := CloudInfo("g2", true)])];
    assert listed[..0] == [] && moved[..1] == listed;
    assert After(mode, []) == map[];
    assert After(mode, listed)[did].gatewayOnline;
    assert After(mode, moved)[did].gatewayOnline && After(mode, moved)[did].groupId == "g2";
    GatewayDisconnect(mode, moved, "g1", did);
  }

  // ---------------------------------------------------------------- what each view said last

  /** Whether some view has ever named the device. */
  predicate Named(ops: seq<Op>, did: Did)
  {
    ops != [] &&
    (Named(ops[..|ops| - 1], did) ||
     match ops[|ops| - 1]
     case RefreshCloud(snapshot) => did in snapshot
     case RefreshDetails(dids, _) => did in Unique(dids)
     case UpdateGateway(_, items) => did in items
     case UpdateLan(lans) => did in lans
     case _ => false)
  }

  /** What the newest LAN list says of a device. */
  function LanSays(ops: seq<Op>, did: Did): LanInfo
  {
    if ops == [] then LanInfo(false, false)
    else
      match ops[|ops| - 1]
      case UpdateLan(lans) => if did in lans then lans[did] else LanInfo(false, false)
      case _ => LanSays(ops[..|ops| - 1], did)
  }

  /** Whether the cloud has the device, by the newest full refresh, refresh of this device, or report on it. */
  predicate CloudHas(ops: seq<Op>, did: Did)
  {
    ops != [] &&
    var older := ops[..|ops| - 1];
    match ops[|ops| - 1]
    case RefreshCloud(snapshot) => did in snapshot
    case RefreshDetails(dids, details) => if did in Unique(dids) then did in details else CloudHas(older, did)
    case ReportCloud(d, _) => (d == did && Named(older, did)) || CloudHas(older, did)
    case _ => CloudHas(older, did)
  }

  /** Whether the cloud has the device online; a lost connection denies it until the cloud speaks again. */
  predicate CloudSaysOnline(ops: seq<Op>, did: Did)
  {
    ops != [] &&
    var older := ops[..|ops| - 1];
    match ops[|ops| - 1]
    case RefreshCloud(snapshot) => did in snapshot && snapshot[did].online
    case RefreshDetails(dids, details) =>
      if did in Unique(dids) then did in details && details[did].online else CloudSaysOnline(older, did)
    case LoseCloud => false
    case ReportCloud(d, state) =>
      if d == did && Named(older, did) then state == Online else CloudSaysOnline(older, did)
    case _ => CloudSaysOnline(older, did)
  }

  /** The group a device was last put in, by a cloud refresh or by a gateway that lists it. */
  function GroupSaid(ops: seq<Op>, did: Did): string
  {
    if ops == [] then ""
    else
      var older := ops[..|ops| - 1];
      match ops[|ops| - 1]
      case RefreshCloud(snapshot) => if did in snapshot then snapshot[did].groupId else GroupSaid(older, did)
      case RefreshDetails(dids, details) =>
        if did in Unique(dids) && did in details && details[did].groupId != "" then details[did].groupId
        else GroupSaid(older, did)
      case UpdateGateway(groupId, items) => if did in items then groupId else GroupSaid(older, did)
      case _ => GroupSaid(older, did)
  }

  /** What the newest list of a gateway that names the device, or of its group's gateway, says of it. */
  function GatewaySays(ops: seq<Op>, did: Did): GatewayInfo
  {
    if ops == [] then GatewayInfo(false, false, false)
    else
      var older := ops[..|ops| - 1];
      match ops[|ops| - 1]
      case UpdateGateway(groupId, items) =>
        if did in items then items[did]
        else if GroupSaid(older, did) == groupId then GatewayInfo(false, false, false)
        else GatewaySays(older, did)
      case _ => GatewaySays(older, did)
  }

  function LanOf(e: Entry): LanInfo
  {
    LanInfo(e.lanOnline, e.lanPush)
  }

  function GatewayOf(e: Entry): GatewayInfo
  {
    GatewayInfo(e.gatewayOnline, e.gatewayPush, e.gatewaySpec)
  }

  predicate CloudUsable(e: Entry)
  {
    e.cloudPresent && e.cloudOnline
  }

  /** What one operation does to one entry, before its state and push source are computed again. */
  function Told(devices: Devices, op: Op, did: Did): Entry
  {
    var e := EntryOf(devices, did);
    match op
    case RefreshCloud(snapshot) => if did in snapshot || e.cloudPresent then CloudEntry(snapshot, did, e) else e
    case RefreshDetails(dids, details) => if did in Unique(dids) then DetailsEntry(details, did, e) else e
    case LoseCloud => if CloudUsable(e) then CloudDown(did, e) else e
    case ReportCloud(d, state) => if d == did && did in devices then ReportEntry(state, e) else e
    case UpdateGateway(groupId, items) =>
      if did in items || e.groupId == groupId then GatewayEntry(groupId, items, did, e) else e
    case UpdateLan(lans) => LanEntry(lans, did, e)
  }

  lemma ToldMeaning(devices: Devices, op: Op, did: Did)
    ensures Told(devices, op, did) ==
            var e := EntryOf(devices, did);
            if did in Touched(devices, op) then Telling(op)(did, e) else e
  {
    hide CloudEntry, DetailsEntry, ReportEntry;
  }

  lemma StepEntry(mode: Mode, devices: Devices, op: Op, did: Did)
    ensures var e := EntryOf(Step(mode, devices, op), did);
            e == Told(devices, op, did).(state := e.state, pushSource := e.pushSource)
    ensures did in Step(mode, devices, op) <==> did in devices || did in Touched(devices, op)
  {
    hide Updated, Touched, Telling, Step, EntryOf, Told, Aggregate, PushSource;
    StepIsUpdate(mode, devices, op);
    UpdatedEntry(mode, devices, Touched(devices, op), Telling(op), did);
    ToldMeaning(devices, op, did);
  }

  lemma StepLan(mode: Mode, devices: Devices, op: Op, did: Did)
    ensures LanOf(EntryOf(Step(mode, devices, op), did)) ==
            if !op.UpdateLan? then LanOf(EntryOf(devices, did))
            else if did in op.lans then op.lans[did] else LanInfo(false, false)
  {
    StepEntry(mode, devices, op, did);
    hide Step, EntryOf;
  }

  lemma StepGateway(mode: Mode, devices: Devices, op: Op, did: Did)
    ensures var e := EntryOf(devices, did);
            GatewayOf(EntryOf(Step(mode, devices, op), did)) ==
              if !op.UpdateGateway? then GatewayOf(e)
              else if did in op.items then op.items[did]
              else if e.groupId == op.groupId then GatewayInfo(false, false, false)
              else GatewayOf(e)
  {
    StepEntry(mode, devices, op, did);
    hide Step, EntryOf;
  }

  lemma StepGroup(mode: Mode, devices: Devices, op: Op, did: Did)
    ensures var e := EntryOf(devices, did);
            EntryOf(Step(mode, devices, op), did).groupId ==
              match op
              case RefreshCloud(snapshot) => if did in snapshot then snapshot[did].groupId else e.groupId
              case RefreshDetails(dids, details) =>
                if did in Unique(dids) && did in details && details[did].groupId != ""
                then details[did].groupId else e.groupId
              case UpdateGateway(groupId, items) => if did in items then groupId else e.groupId
              case _ => e.groupId
  {
    StepEntry(mode, devices, op, did);
    hide Step, EntryOf;
  }

  lemma StepCloud(mode: Mode, devices: Devices, op: Op, did: Did)
    ensures var e := EntryOf(devices, did);
            EntryOf(Step(mode, devices, op), did).cloudPresent ==
              match op
              case RefreshCloud(snapshot) => did in snapshot
              case RefreshDetails(dids, details) => if did in Unique(dids) then did in details else e.cloudPresent
              case ReportCloud(d, _) => (d == did && did in devices) || e.cloudPresent
              case _ => e.cloudPresent
    ensures var e := EntryOf(devices, did);
            CloudUsable(EntryOf(Step(mode, devices, op), did)) ==
              match op
              case RefreshCloud(snapshot) => did in snapshot && snapshot[did].online
              case RefreshDetails(dids, details) =>
                if did in Unique(dids) then did in details && details[did].online else CloudUsable(e)
              case LoseCloud => false
              case ReportCloud(d, state) => if d == did && did in devices then state == Online else CloudUsable(e)
              case _ => CloudUsable(e)
  {
    StepEntry(mode, devices, op, did);
    hide Step, EntryOf;
  }

  lemma {:induction false} NamedHeld(mode: Mode, ops: seq<Op>, did: Did)
    ensures did in After(mode, ops) <==> Named(ops, did)
  {
    if ops != [] {
      var older, op := ops[..|ops| - 1], ops[|ops| - 1];
      NamedHeld(mode, older, did);
      StepEntry(mode, After(mode, older), op, did);
      hide Step;
    }
  }

  lemma {:induction false} LanHeld(mode: Mode, ops: seq<Op>, did: Did)
    ensures LanOf(EntryOf(After(mode, ops), did)) == LanSays(ops, did)
  {
    if ops != [] {
      var older, op := ops[..|ops| - 1], ops[|ops| - 1];
      LanHeld(mode, older, did);
      StepLan(mode, After(mode, older), op, did);
      hide Step, EntryOf, LanOf;
    }
  }

  lemma {:induction false} GroupHeld(mode: Mode, ops: seq<Op>, did: Did)
    ensures EntryOf(After(mode, ops), did).groupId == GroupSaid(ops, did)
  {
    if ops != [] {
      var older, op := ops[..|ops| - 1], ops[|ops| - 1];
      GroupHeld(mode, older, did);
      StepGroup(mode, After(mode, older), op, did);
      hide Step, EntryOf;
    }
  }

  lemma {:induction false} GatewayHeld(mode: Mode, ops: seq<Op>, did: Did)
    ensures GatewayOf(EntryOf(After(mode, ops), did)) == GatewaySays(ops, did)
  {
    if ops != [] {
      var older, op := ops[..|ops| - 1], ops[|ops| - 1];
      GatewayHeld(mode, older, did);
      GroupHeld(mode, older, did);
      StepGateway(mode, After(mode, older), op, did);
      hide Step, EntryOf, GatewayOf, GroupSaid;
    }
  }

  lemma {:induction false} CloudHeld(mode: Mode, ops: seq<Op>, did: Did)
    ensures EntryOf(After(mode, ops), did).cloudPresent == CloudHas(ops, did)
    ensures CloudUsable(EntryOf(After(mode, ops), did)) == CloudSaysOnline(ops, did)
  {
    if ops != [] {
      var older, op := ops[..|ops| - 1], ops[|ops| - 1];
      CloudHeld(mode, older, did);
      NamedHeld(mode, older, did);
      StepCloud(mode, After(mode, older), op, did);
      hide Step, EntryOf, CloudUsable, Named;
    }
  }

  /**
    What a client shows of a device after any run, from what its views said last alone: which devices
    it knows, their state, and which backend pushes for them.
  */
  lemma ShownAfterRun(mode: Mode, ops: seq<Op>, did: Did)
    ensures did in After(mode, ops) <==> Named(ops, did)
    ensures StateOf(After(mode, ops), did) ==
            if GatewaySays(ops, did).online || LanSays(ops, did).online || CloudSaysOnline(ops, did) then Online
            else if CloudHas(ops, did) then Offline
            else Disable
    ensures SourceOf(After(mode, ops), did) ==
            if mode == Auto && GatewaySays(ops, did).online && GatewaySays(ops, did).push && GroupSaid(ops, did) != ""
            then GroupSaid(ops, did)
            else if mode == Auto && LanSays(ops, did).online && LanSays(ops, did).push then LAN
            else if CloudSaysOnline(ops, did) then CLOUD
            else ""
  {
    NamedHeld(mode, ops, did);
    LanHeld(mode, ops, did);
    GroupHeld(mode, ops, did);
    GatewayHeld(mode, ops, did);
    CloudHeld(mode, ops, did);
    AggregatedAlways(mode, ops);
    hide GatewaySays, LanSays, CloudHas, CloudSaysOnline, GroupSaid, After, Named;
  }

  // ---------------------------------------------------------------- composing passes

  lemma {:induction false} NotesAppend(xs: seq<Change>, ys: seq<Change>)
    ensures Notes(xs + ys) == Notes(xs) + Notes(ys)
    decreases |ys|
  {
    if ys == [] {
      assert xs + ys == xs;
    } else {
      var n := |ys| - 1;
      assert xs + ys == (xs + ys[..n]) + [ys[n]] && ys == ys[..n] + [ys[n]];
      NotesAppend(xs, ys[..n]);
      NotesSnoc(xs + ys[..n], ys[n]);
      NotesSnoc(ys[..n], ys[n]);
    }
  }

  lemma MarkedAppend(xs: seq<Change>, ys: seq<Change>, did: Did)
    ensures Marked(xs + ys, did) <==> Marked(xs, did) || Marked(ys, did)
  {
    if Marked(xs, did) {
      var i :| 0 <= i < |xs| && xs[i].did == did && xs[i].sourceChanged;
      assert (xs + ys)[i] == xs[i];
    }
    if Marked(ys, did) {
      var i :| 0 <= i < |ys| && ys[i].did == did && ys[i].sourceChanged;
      assert (xs + ys)[|xs| + i] == ys[i];
    }
  }

  /** Two passes explained one after the other are explained together, also when both touch a device. */
  lemma ExplainsCompose(a: Devices, xs: seq<Change>, b: Devices, ys: seq<Change>, c: Devices)
    requires Explains(a, xs, b) && Explains(b, ys, c)
    ensures Explains(a, xs + ys, c)
  {
    NotesAppend(xs, ys);
    hide Notes, LastState, NoRepeats, Marked;
    forall did: Did
      ensures LastState(Notes(xs + ys), did, StateOf(a, did)) == StateOf(c, did)
      ensures NoRepeats(Notes(xs + ys), did, StateOf(a, did))
      ensures SourceOf(a, did) != SourceOf(c, did) ==> Marked(xs + ys, did)
    {
      assert LastState(Notes(xs), did, StateOf(a, did)) == StateOf(b, did);
      LastStateAppend(Notes(xs), Notes(ys), did, StateOf(a, did));
      MarkedAppend(xs, ys, did);
    }
  }

  lemma UpdatedSnoc(mode: Mode, devices: Devices, dids: set<Did>, did: Did, f: (Did, Entry) -> Entry)
    requires did !in dids
    ensures var part := Updated(mode, devices, dids, f);
            EntryOf(part, did) == EntryOf(devices, did) &&
            Updated(mode, devices, dids + {did}, f) == part[did := Recompute(mode, f(did, EntryOf(part, did)))]
  {
  }

  function Absent(did: Did, e: Entry): Entry
  {
    e.(cloudPresent := false)
  }

  /**
    A device the cloud lists ends the same whether or not the first pass touched it; one it does not list, as
    that pass left it.
  */
  lemma ListedOverrides(mode: Mode, e: Entry, did: Did, snapshot: map<Did, CloudInfo>)
    ensures did in snapshot ==>
              Recompute(mode, FromCloud(snapshot)(did, Recompute(mode, Absent(did, e)))) ==
                Recompute(mode, FromCloud(snapshot)(did, e))
    ensures did !in snapshot ==> FromCloud(snapshot)(did, e) == Absent(did, e)
  {
  }

  lemma UpdatedEntry(mode: Mode, devices: Devices, dids: set<Did>, f: (Did, Entry) -> Entry, did: Did)
    ensures EntryOf(Updated(mode, devices, dids, f), did) ==
            if did in dids then Recompute(mode, f(did, EntryOf(devices, did))) else EntryOf(devices, did)
    ensures Updated(mode, devices, dids, f).Keys == devices.Keys + dids
  {
    hide Recompute;
  }

  /** Registries with the same devices and entries are equal. */
  lemma SameEntries(a: Devices, b: Devices)
    requires a.Keys == b.Keys && forall did :: did in a ==> EntryOf(a, did) == EntryOf(b, did)
    ensures a == b
  {
    assert forall did :: did in a ==> a[did] == EntryOf(a, did) == EntryOf(b, did) == b[did];
  }

  /** The two passes of a cloud refresh amount to one. */
  lemma CloudTwoPasses(mode: Mode, devices: Devices, snapshot: map<Did, CloudInfo>)
    ensures Updated(mode, Updated(mode, devices, CloudDids(devices), Absent), snapshot.Keys, FromCloud(snapshot))
         == CloudRefreshed(mode, devices, snapshot)
  {
    var once := Updated(mode, devices, CloudDids(devices), Absent);
    var twice := Updated(mode, once, snapshot.Keys, FromCloud(snapshot));
    var goal := CloudRefreshed(mode, devices, snapshot);
    assert CloudDids(devices) <= devices.Keys;
    hide Updated, Recompute, CloudDids, FromCloud, EntryOf, Absent;
    UpdatedEntry(mode, devices, CloudDids(devices), Absent, "");
    UpdatedEntry(mode, once, snapshot.Keys, FromCloud(snapshot), "");
    UpdatedEntry(mode, devices, CloudDids(devices) + snapshot.Keys, FromCloud(snapshot), "");
    forall did | did in twice
      ensures EntryOf(twice, did) == EntryOf(goal, did)
    {
      ListedOverrides(mode, EntryOf(devices, did), did, snapshot);
      UpdatedEntry(mode, devices, CloudDids(devices), Absent, did);
      UpdatedEntry(mode, once, snapshot.Keys, FromCloud(snapshot), did);
      UpdatedEntry(mode, devices, CloudDids(devices) + snapshot.Keys, FromCloud(snapshot), did);
    }
    SameEntries(twice, goal);
  }

  lemma UpdatedNone(mode: Mode, devices: Devices, f: (Did, Entry) -> Entry)
    ensures Updated(mode, devices, {}, f) == devices
  {
  }

  /** Known devices first and newly listed ones after them amounts to one pass over both. */
  lemma DisjointPasses(mode: Mode, devices: Devices, xs: set<Did>, ys: set<Did>, f: (Did, Entry) -> Entry)
    ensures Updated(mode, Updated(mode, devices, xs, f), ys - xs, f) == Updated(mode, devices, xs + ys, f)
  {
  }
}
