/** The messaging side of the device, as values: creating messages, dispatching the head of
    a queue, answering responses, and the boot gate that these share. */
module DeviceModel {
  import opened Wrappers
  import opened Text
  import opened Entries
  import opened StoreModel
  import opened StoreFacts

  const CONFIG: string := "ConfigurationData"
  const SESSION: string := "ChargingSession"
  const FAULT: string := "FaultInformation"
  const CHARGER_PERIODIC: string := "ChargerPeriodicData"
  const PCM_PERIODIC: string := "PCMPeriodicData"

  const RETRY_INTERVAL: int := 20000
  const TICKS: int := 0x1_0000_0000_0000_0000

  predicate Critical(action: string) {
    action == CONFIG || action == SESSION || action == FAULT
  }

  function Quoted(s: string): string {
    "\"" + s + "\""
  }

  /** create_json_call_string: [2,"uuid","action",payload] */
  function CallText(uuid: string, action: string, payload: string): string {
    "[2," + Quoted(uuid) + "," + Quoted(action) + "," + payload + "]"
  }

  // ---------------------------------------------------------------- the device

  /** One call of the MQTT client's publish, with the gate and the fault files at that time. */
  datatype Attempt = Attempt(text: string, importance: int, time: int, ok: bool, gateOpen: bool, faultWaiting: bool)

  /** A deletion at the retry limit, after so many attempts. */
  datatype Drop = Drop(text: string, after: nat)

  /** bootEntry, attempts and drops are history of the running boot. */
  datatype Device = Device(store: Store,
                           retry: int, lastSent: Option<string>, lastCheck: int,
                           bootFlag: int, bootUuid: string, exchanged: bool,
                           bootEntry: string, attempts: seq<Attempt>, drops: seq<Drop>)

  function Fresh(connectors: nat): Device {
    Device(Store(seq(CONNECTORS + connectors, _ => Slot([], 0)),
                 seq(CONNECTORS + connectors, _ => Trail([], multiset{}, multiset{}, multiset{})), 0, false),
           0, None, 0, 1, "", false, "", [], [])
  }

  // ---------------------------------------------------------------- dispatch

  /** get_queued_fault_messages: the head of the first fault file that is not empty. */
  function FaultHeadFrom(st: Store, f: nat): Option<string>
    decreases Visible(st) - f
  {
    if f >= Visible(st) then None
    else if st.slots[f].lines != [] then Some(Head(st.slots[f].lines[0]))
    else FaultHeadFrom(st, f + 1)
  }

  function Importance(message: string): int {
    if Occurs(Quoted(CONFIG), message) then 1
    else if Occurs(Quoted(SESSION), message) then 2
    else 0
  }

  /** The message to send: a fault once the gate is open, else the head of the request file,
      unless that is a charging session and the gate is closed. */
  function Pick(d: Device): (Option<string>, int)
    requires Shaped(d.store)
  {
    var fault := if d.exchanged then FaultHeadFrom(d.store, ONLINE) else None;
    if fault.Some? then (fault, 3)
    else if d.store.slots[REQUEST].lines == [] then (None, 0)
    else
      var message := Head(d.store.slots[REQUEST].lines[0]);
      var importance := Importance(message);
      if importance == 2 && !d.exchanged then (None, importance) else (Some(message), importance)
  }

  /** The retry counters after a successful publish of the message. */
  function CountRepeat(env: Env, d: Device, message: string, importance: int): Device
    requires Shaped(d.store)
  {
    if d.lastSent == None then d
    else if d.lastSent != Some(message) then d.(retry := 0)
    else
      var d1 :=
        if importance == 0 then d.(retry := Byte(d.retry + 1))
        else
          var st := d.store.(critical := Byte(d.store.critical + 1));
          d.(store := if st.critical >= 3 then Extract(env, st, message).0 else st);
      assert Shaped(d1.store) by { DropShaped(env, d.store, message); }
      if d1.retry >= 3
      then d1.(retry := 0, store := DropText(env, d1.store, message),
               drops := d1.drops + [Drop(message, |d1.attempts|)])
      else d1
  }

  lemma DropShaped(env: Env, st: Store, target: string)
    requires Shaped(st)
    ensures forall c: int :: Shaped(DropText(env, st.(critical := c), target))
  {
    forall c: int ensures Shaped(DropText(env, st.(critical := c), target)) {
      DropBehind(env, st.(critical := c), target, REQUEST, 0);
    }
  }

  /** Some fault file holds an entry. */
  predicate FaultWaiting(st: Store) {
    exists f :: ONLINE <= f < |st.slots| && st.slots[f].lines != []
  }

  function AttemptOf(d: Device, now: int, ok: bool): Attempt
    requires Shaped(d.store) && Pick(d).0.Some?
  {
    Attempt(Pick(d).0.value, Pick(d).1, now, ok, d.exchanged, FaultWaiting(d.store))
  }

  /** One dispatch of the main loop: nothing while offline, nothing while the last sent
      message is less than the retry interval old, else one attempt. */
  function Dispatch(env: Env, d: Device, online: bool, now: int, ok: bool): Device
    requires Shaped(d.store)
  {
    if !online then d
    else
      var picked := Pick(d);
      if picked.0 == None then d
      else if d.lastSent == picked.0 && (now - d.lastCheck) % TICKS < RETRY_INTERVAL then d
      else
        var message := picked.0.value;
        var d1 := d.(lastCheck := now, attempts := d.attempts + [AttemptOf(d, now, ok)]);
        if ok then CountRepeat(env, d1, message, picked.1).(lastSent := Some(message)) else d1
  }

  // ---------------------------------------------------------------- creating messages

  /** What the tasks create: see the callers of create_json_call_string. */
  datatype Kind = Configuration | ChargerPeriodic | PcmPeriodic | Session | Fault(faultType: nat, player: nat)

  function ActionName(kind: Kind): string {
    match kind
    case Configuration => CONFIG
    case ChargerPeriodic => CHARGER_PERIODIC
    case PcmPeriodic => PCM_PERIODIC
    case Session => SESSION
    case Fault(_, _) => FAULT
  }

  /** The file a message goes to; none for a fault of a player above the connector limit. */
  function Route(kind: Kind): Option<nat> {
    match kind
    case Fault(faultType, player) =>
      if faultType != 0 then Some(ONLINE)
      else if player == 0 then Some(OFFLINE)
      else if player <= MAX_CONNECTORS then Some(CONNECTORS + player - 1)
      else None
    case _ => Some(REQUEST)
  }

  /** The guard under which a task creates the message. */
  predicate MayCreate(d: Device, kind: Kind) {
    match kind
    case Configuration => d.bootFlag == 3 || d.bootFlag == 0
    case ChargerPeriodic => d.exchanged
    case PcmPeriodic => d.exchanged
    case Session => true
    case Fault(_, _) => true
  }

  /** create_json_call_string's capture of the boot message's UUID. */
  function Capture(d: Device, kind: Kind, uuid: string, payload: string): Device {
    if d.bootFlag == 3 && kind == Configuration
    then d.(bootUuid := uuid, bootEntry := CallText(uuid, CONFIG, payload), bootFlag := 0)
    else d
  }

  /** After a configuration message the connector files are named and counted. */
  function NameFiles(st: Store): Store
    requires Shaped(st)
  {
    RecountFrom(st.(named := true), CONNECTORS)
  }

  /** A task creates a message and stores it. */
  function Create(env: Env, d: Device, kind: Kind, uuid: string, payload: string, timestamp: string): Device
    requires Shaped(d.store) && (Route(kind).Some? ==> Route(kind).value < |d.store.slots|)
  {
    if !MayCreate(d, kind) then d
    else
      var d1 := Capture(d, kind, uuid, payload);
      match Route(kind)
      case None => d1
      case Some(f) =>
        var st := Save(env, d1.store, f, CallText(uuid, ActionName(kind), payload), timestamp);
        d1.(store := if kind == Configuration then NameFiles(st) else st)
  }

  // ---------------------------------------------------------------- received messages

  /** An item of a received array.  An object is described by whether it has a valid
      timestamp, and numeric component and id. */
  datatype Item = Number(value: int) | Str(text: string) | Object(stamped: bool, addressed: bool) | Other

  datatype Inbound = NotJson | NotArray | Array(items: seq<Item>)

  datatype Code =
    | ValidMsg
    | JsonArrayNotFound
    | InvalidJsonFormat
    | ElementsOutOfRange
    | InvalidMessageTypeId
    | InvalidCallErrorFormat
    | InvalidMessageId
    | InvalidAction
    | InvalidPayload
    | ComponentStatusPayloadError
    | PeriodicDataPayloadError
    | ConfigurationDataPayloadError
    | ChargingSessionPayloadError
    | FaultLogPayloadError
    | InvalidMsg

  predicate MessageId(item: Item) {
    item.Str? && |item.text| <= 36
  }

  /** The payload check of each action's response. */
  function PayloadCode(action: string, stamped: bool): Code {
    if action == CONFIG then (if stamped then ValidMsg else ConfigurationDataPayloadError)
    else if action == CHARGER_PERIODIC || action == PCM_PERIODIC then
      (if stamped then ValidMsg else PeriodicDataPayloadError)
    else if action == SESSION then (if stamped then ValidMsg else ChargingSessionPayloadError)
    else if action == FAULT then (if stamped then ValidMsg else FaultLogPayloadError)
    else InvalidMsg
  }

  /** process_configurationData_payload's side effect. */
  function OpenGate(d: Device, uuid: string): Device {
    if !d.exchanged && d.bootUuid == uuid then d.(exchanged := true) else d
  }

  function OnCall(items: seq<Item>): Code
    requires |items| >= 4
  {
    if items[0] != Number(2) then InvalidMessageTypeId
    else if !MessageId(items[1]) then InvalidMessageId
    else if !items[2].Str? || items[2].text == "" then InvalidAction
    else if !items[3].Object? then InvalidPayload
    else if items[2].text != "ComponentStatus" then InvalidMsg
    else if items[3].addressed then ValidMsg
    else ComponentStatusPayloadError
  }

  function OnCallResult(env: Env, d: Device, items: seq<Item>): (Device, Code)
    requires Shaped(d.store) && |items| >= 3
  {
    if items[0] != Number(3) then (d, InvalidMessageTypeId)
    else if !MessageId(items[1]) then (d, InvalidMessageId)
    else
      var uuid := items[1].text;
      match Lookup(env, d.store, uuid)
      case None => (d, ValidMsg)
      case Some(action) =>
        if !items[2].Object? then (d, InvalidPayload)
        else
          var code := PayloadCode(action, items[2].stamped);
          var d1 := if action == CONFIG && code == ValidMsg then OpenGate(d, uuid) else d;
          if Critical(action) && code != ValidMsg then (d1, code)
          else if action != FAULT then (d1.(store := AnswerRequest(env, d1.store, uuid)), code)
          else (d1.(store := AnswerFault(env, d1.store, uuid)), code)
  }

  function OnCallError(env: Env, d: Device, items: seq<Item>): Code
    requires Shaped(d.store) && |items| >= 5
  {
    if items[0] != Number(4) then InvalidMessageTypeId
    else if !MessageId(items[1]) then InvalidMessageId
    else if !items[2].Str? || !items[3].Str? then InvalidCallErrorFormat
    else if Lookup(env, d.store, items[1].text) == None then ValidMsg
    else InvalidMsg
  }

  /** validate_json_string.  The element count is a uint8_t. */
  function Validate(env: Env, d: Device, inbound: Inbound): (Device, Code)
    requires Shaped(d.store)
  {
    match inbound
    case NotJson => (d, InvalidJsonFormat)
    case NotArray => (d, JsonArrayNotFound)
    case Array(items) =>
      var count := Byte(|items|);
      if count < 3 || count > 5 then (d, ElementsOutOfRange)
      else if count == 4 then (d, OnCall(items))
      else if count == 3 then OnCallResult(env, d, items)
      else (d, OnCallError(env, d, items))
  }

  // ---------------------------------------------------------------- boot

  /** The main loop's two boot steps, in one iteration. */
  function Advance(d: Device, ready: bool): Device {
    var d1 := if d.bootFlag == 1 && ready then d.(bootFlag := 2) else d;
    if d1.bootFlag == 2 then d1.(bootFlag := 3) else d1
  }

  /** A restart keeps the files and counts the first three; connector files have no name again. */
  function Reboot(d: Device): Device
    requires Shaped(d.store)
  {
    Device(RecountFrom(d.store.(critical := 0, named := false), REQUEST), 0, None, 0, 1, "", false, "", [], [])
  }

  // ---------------------------------------------------------------- runs

  datatype Step =
    | DoAdvance(ready: bool)
    | DoDispatch(online: bool, now: int, ok: bool)
    | DoCreate(kind: Kind, uuid: string, payload: string, timestamp: string)
    | DoReceive(inbound: Inbound)
    | DoReboot

  /** The new message is told apart from every stored one by its UUID. */
  ghost predicate Unused(env: Env, d: Device, uuid: string, line: string) {
    && uuid != "" && uuid != d.bootUuid
    && forall f, x :: 0 <= f < |d.store.slots| && x in d.store.slots[f].lines ==>
         && !Occurs(uuid, x)
         && (UuidOf(env, x).Some? ==> !Occurs(UuidOf(env, x).value, line))
  }

  /** What the surroundings guarantee: a clock that does not go back within a boot, UUIDs that
      are fresh, a printer that the parser undoes, and timestamps before the sentinel. */
  ghost predicate Legal(env: Env, d: Device, step: Step) {
    match step
    case DoAdvance(_) => true
    case DoDispatch(_, now, _) => d.lastCheck <= now < TICKS
    case DoCreate(kind, uuid, payload, timestamp) =>
      var text := CallText(uuid, ActionName(kind), payload);
      && '|' !in text && '|' !in timestamp && env.when(timestamp) < env.when(SENTINEL)
      && env.parse(text) == Valid(Some(uuid), Some(ActionName(kind)))
      && Unused(env, d, uuid, Line(text, timestamp))
      && (Route(kind).Some? ==> Route(kind).value < |d.store.slots|)
    case DoReceive(_) => true
    case DoReboot => true
  }

  function Next(env: Env, d: Device, step: Step): Device
    requires Shaped(d.store)
    requires step.DoCreate? && Route(step.kind).Some? ==> Route(step.kind).value < |d.store.slots|
  {
    match step
    case DoAdvance(ready) => Advance(d, ready)
    case DoDispatch(online, now, ok) => Dispatch(env, d, online, now, ok)
    case DoCreate(kind, uuid, payload, timestamp) => Create(env, d, kind, uuid, payload, timestamp)
    case DoReceive(inbound) => Validate(env, d, inbound).0
    case DoReboot => Reboot(d)
  }
}
