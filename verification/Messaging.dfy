/** The firmware's messaging code over its global variables.  Every method is proved equal to
    its operation in DeviceModel. */
module Messaging {
  import opened Wrappers
  import opened Text
  import opened Entries
  import opened StoreModel
  import opened Spiffs
  import opened DeviceModel

  class Messenger {
    const store: MessageStore
    var retryCount: int
    var lastSentMessage: Option<string>
    var lastCheckTime: int
    var firstTimeBootUpFlag: int
    var configDataBootUuid: string
    var configDataExchanged: bool
    ghost var bootEntry: string
    ghost var attempts: seq<Attempt>
    ghost var drops: seq<Drop>

    ghost function State(): Device
      reads this, store
    {
      Device(store.State(), retryCount, lastSentMessage, lastCheckTime,
             firstTimeBootUpFlag, configDataBootUuid, configDataExchanged, bootEntry, attempts, drops)
    }

    ghost predicate Valid()
      reads this, store
    {
      store.Valid()
    }

    /** The device with an empty flash, at its first start. */
    constructor (env: Env, connectors: nat)
      requires connectors <= MAX_CONNECTORS
      ensures Valid() && fresh(store) && store.env == env
      ensures State() == Fresh(connectors)
    {
      store := new MessageStore(env, connectors);
      retryCount, lastSentMessage, lastCheckTime := 0, None, 0;
      firstTimeBootUpFlag, configDataBootUuid, configDataExchanged := 1, "", false;
      bootEntry, attempts, drops := "", [], [];
    }

    // -------------------------------------------------------------- dispatch

    /** get_queued_fault_messages */
    method GetQueuedFault() returns (message: Option<string>)
      requires Valid()
      ensures message == FaultHeadFrom(store.State(), ONLINE)
      ensures forall f :: ONLINE <= f < store.SeenFiles() && store.slots[f].lines != [] &&
                          (forall g :: ONLINE <= g < f ==> store.slots[g].lines == []) ==>
                message == Some(Head(store.slots[f].lines[0]))
      ensures (forall f :: ONLINE <= f < store.SeenFiles() ==> store.slots[f].lines == []) ==> message == None
    {
      for f := ONLINE to store.SeenFiles()
        invariant FaultHeadFrom(store.State(), ONLINE) == FaultHeadFrom(store.State(), f)
        invariant forall g :: ONLINE <= g < f ==> store.slots[g].lines == []
      {
        if store.slots[f].lines != [] {
          var line := store.slots[f].lines[0];
          return Some(line[..First(line, '|')]);
        }
      }
      return None;
    }

    /** get_queued_request_messages */
    method GetQueuedRequest() returns (message: Option<string>, importance: int)
      requires Valid()
      ensures store.slots[REQUEST].lines == [] ==> message == None && importance == 0
      ensures store.slots[REQUEST].lines != [] ==>
                && message == Some(Head(store.slots[REQUEST].lines[0]))
                && importance == Importance(message.value)
                && importance == (if Occurs("\"ConfigurationData\"", message.value) then 1
                                  else if Occurs("\"ChargingSession\"", message.value) then 2 else 0)
    {
      if store.slots[REQUEST].lines == [] {
        return None, 0;
      }
      var line := store.slots[REQUEST].lines[0];
      var text := line[..First(line, '|')];
      if Occurs("\"ConfigurationData\"", text) {
        importance := 1;
      } else if Occurs("\"ChargingSession\"", text) {
        importance := 2;
      } else {
        importance := 0;
      }
      assert Quoted(CONFIG) == "\"ConfigurationData\"" && Quoted(SESSION) == "\"ChargingSession\"";
      message := Some(text);
    }

    method PickMessage() returns (message: Option<string>, importance: int)
      requires Valid()
      ensures (message, importance) == Pick(State())
    {
      message, importance := None, 0;
      if configDataExchanged {
        message := GetQueuedFault();
        importance := 3;
        if message == None { importance := 0; }
      }
      if message == None {
        message, importance := GetQueuedRequest();
        if importance == 2 && !configDataExchanged {
          message := None;
        }
      }
    }

    /** The retry counters after a successful publish. */
    method CountRepeatedMessage(message: string, importance: int)
      requires Valid()
      modifies this`retryCount, this`drops, store
      ensures Valid()
      ensures State() == CountRepeat(store.env, old(State()), message, importance)
    {
      if lastSentMessage.Some? {
        if lastSentMessage.value == message {
          if importance == 0 {
            retryCount := Byte(retryCount + 1);
          } else {
            store.critical := Byte(store.critical + 1);
            if store.critical >= 3 {
              var uuid := store.ExtractUuid(lastSentMessage.value);
            }
          }
          if retryCount >= 3 {
            retryCount := 0;
            drops := drops + [Drop(message, |attempts|)];
            var remaining := store.SearchAndDelete(lastSentMessage.value);
          }
        } else {
          retryCount := 0;
        }
      }
    }

    /** The dispatch part of one main loop iteration.  ok is what the publish call reports. */
    method DispatchNext(online: bool, now: int, ok: bool)
      requires Valid()
      modifies this, store
      ensures Valid()
      ensures State() == Dispatch(store.env, old(State()), online, now, ok)
    {
      if online {
        var message, importance := PickMessage();
        if message.Some? {
          if lastSentMessage == message && (now - lastCheckTime) % TICKS < RETRY_INTERVAL {
            return;
          }
          attempts := attempts + [AttemptOf(State(), now, ok)];
          lastCheckTime := now;
          if ok {
            CountRepeatedMessage(message.value, importance);
            lastSentMessage := message;
          }
        }
      }
    }

    // -------------------------------------------------------------- creating messages

    /** create_json_call_string */
    method CreateJsonCall(kind: Kind, uuid: string, payload: string) returns (text: string)
      modifies this`configDataBootUuid, this`firstTimeBootUpFlag, this`bootEntry
      ensures text == CallText(uuid, ActionName(kind), payload)
      ensures State() == Capture(old(State()), kind, uuid, payload)
    {
      text := "[2," + Quoted(uuid) + "," + Quoted(ActionName(kind)) + "," + payload + "]";
      if firstTimeBootUpFlag == 3 && kind == Configuration {
        configDataBootUuid := uuid;
        bootEntry := text;
        firstTimeBootUpFlag := 0;
      }
    }

    /** A task's guarded creation of a message. */
    method CreateMessage(kind: Kind, uuid: string, payload: string, timestamp: string)
      requires Valid() && (Route(kind).Some? ==> Route(kind).value < |store.slots|)
      modifies this`configDataBootUuid, this`firstTimeBootUpFlag, this`bootEntry, store
      ensures Valid()
      ensures State() == Create(store.env, old(State()), kind, uuid, payload, timestamp)
    {
      var allowed := match kind
        case Configuration => firstTimeBootUpFlag == 3 || firstTimeBootUpFlag == 0
        case ChargerPeriodic => configDataExchanged
        case PcmPeriodic => configDataExchanged
        case Session => true
        case Fault(_, _) => true;
      if allowed {
        var text := CreateJsonCall(kind, uuid, payload);
        if Route(kind).Some? {
          store.SavePayload(Route(kind).value, text, timestamp);
          if kind == Configuration {
            store.NameConnectorFiles();
          }
        }
      }
    }

    // -------------------------------------------------------------- received messages

    /** process_configurationData_payload */
    method ProcessConfigurationData(stamped: bool, uuid: string) returns (code: Code)
      modifies this`configDataExchanged
      ensures code == PayloadCode(CONFIG, stamped)
      ensures State() == if code == ValidMsg then OpenGate(old(State()), uuid) else old(State())
    {
      if !stamped {
        return ConfigurationDataPayloadError;
      }
      if !configDataExchanged && configDataBootUuid == uuid {
        configDataExchanged := true;
      }
      return ValidMsg;
    }

    /** The CALLRESULT branch of validate_json_string. */
    method ReceiveCallResult(items: seq<Item>) returns (code: Code)
      requires Valid() && store.critical < 3 && |items| >= 3
      modifies this`configDataExchanged, store
      ensures Valid()
      ensures (State(), code) == OnCallResult(store.env, old(State()), items)
    {
      if items[0] != Number(3) { return InvalidMessageTypeId; }
      if !MessageId(items[1]) { return InvalidMessageId; }
      var uuid := items[1].text;
      var action := store.GetActionFromUuid(uuid);
      if action == None { return ValidMsg; }
      if !items[2].Object? { return InvalidPayload; }
      if action.value == CONFIG {
        code := ProcessConfigurationData(items[2].stamped, uuid);
      } else {
        code := PayloadCode(action.value, items[2].stamped);
      }
      if !(Critical(action.value) && code != ValidMsg) {
        if action.value != FAULT {
          store.HandleResponse(uuid);
        } else {
          store.HandleFaultResponse(uuid);
        }
      }
    }

    /** validate_json_string */
    method ValidateJson(inbound: Inbound) returns (code: Code)
      requires Valid() && store.critical < 3
      modifies this`configDataExchanged, store
      ensures Valid()
      ensures (State(), code) == Validate(store.env, old(State()), inbound)
    {
      if inbound.NotJson? { return InvalidJsonFormat; }
      if inbound.NotArray? { return JsonArrayNotFound; }
      var items := inbound.items;
      var count := Byte(|items|);
      if count < 3 || count > 5 { return ElementsOutOfRange; }
      if count == 4 {
        code := OnCall(items);
      } else if count == 3 {
        code := ReceiveCallResult(items);
      } else {
        code := ReceiveCallError(items);
      }
    }

    /** The CALLERROR branch: it looks the request up and deletes nothing. */
    method ReceiveCallError(items: seq<Item>) returns (code: Code)
      requires Valid() && store.critical < 3 && |items| >= 5
      modifies store
      ensures Valid() && State() == old(State())
      ensures code == OnCallError(store.env, State(), items)
    {
      if items[0] != Number(4) { return InvalidMessageTypeId; }
      if !MessageId(items[1]) { return InvalidMessageId; }
      if !items[2].Str? || !items[3].Str? { return InvalidCallErrorFormat; }
      var action := store.GetActionFromUuid(items[1].text);
      if action == None { return ValidMsg; }
      return InvalidMsg;
    }

    // -------------------------------------------------------------- boot

    /** The boot part of one main loop iteration. */
    method AdvanceBoot(ready: bool)
      modifies this`firstTimeBootUpFlag
      ensures State() == Advance(old(State()), ready)
    {
      if firstTimeBootUpFlag == 1 && ready {
        firstTimeBootUpFlag := 2;
      }
      if firstTimeBootUpFlag == 2 {
        firstTimeBootUpFlag := 3;
      }
    }

    /** A restart: globals start over, files stay and are counted. */
    method Restart()
      requires Valid()
      modifies this, store
      ensures Valid()
      ensures State() == Reboot(old(State()))
    {
      store.critical, store.named := 0, false;
      retryCount, lastSentMessage, lastCheckTime := 0, None, 0;
      firstTimeBootUpFlag, configDataBootUuid, configDataExchanged := 1, "", false;
      bootEntry, attempts, drops := "", [], [];
      store.RecountFiles(REQUEST);
    }
  }
}
