/** What single steps of the device do, said without the functions that compute them. */
module DeviceSteps {
  import opened Wrappers
  import opened Text
  import opened Entries
  import opened StoreModel
  import opened StoreFacts
  import opened DeviceModel
  import opened DeviceFacts
  import opened DeviceRuns

  // ---------------------------------------------------------------- which message is next

  /** The first fault file that is seen and holds an entry. */
  ghost predicate FirstFault(st: Store, f: nat) {
    && ONLINE <= f < Visible(st) && st.slots[f].lines != []
    && forall g :: ONLINE <= g < f ==> st.slots[g].lines == []
  }

  ghost predicate NoFault(st: Store) {
    forall g :: ONLINE <= g < Visible(st) ==> st.slots[g].lines == []
  }

  /** With the gate open the head of the first fault file that is not empty; without a fault, or
      with the gate closed, the head of the request file, unless the gate is closed and it is a
      session that does not quote the configuration's name. */
  ghost predicate IsNext(d: Device, text: string)
    requires Shaped(d.store)
  {
    var requests := d.store.slots[REQUEST].lines;
    || (d.exchanged && exists f: nat :: FirstFault(d.store, f) && text == Head(d.store.slots[f].lines[0]))
    || (&& (d.exchanged ==> NoFault(d.store)) && requests != [] && text == Head(requests[0])
        && (d.exchanged || Occurs("\"ConfigurationData\"", text) || !Occurs("\"ChargingSession\"", text)))
  }

  lemma {:induction false} FaultHeadIs(st: Store, f: nat, first: nat)
    requires f <= first < Visible(st) && st.slots[first].lines != []
    requires forall g :: f <= g < first ==> st.slots[g].lines == []
    ensures FaultHeadFrom(st, f) == Some(Head(st.slots[first].lines[0]))
    decreases first - f
  {
    if f < first {
      FaultHeadIs(st, f + 1, first);
    }
  }

  lemma {:induction false} FaultHeadNone(st: Store, f: nat)
    requires forall g :: f <= g < Visible(st) ==> st.slots[g].lines == []
    ensures FaultHeadFrom(st, f) == None
    decreases Visible(st) - f
  {
    if f < Visible(st) {
      FaultHeadNone(st, f + 1);
    }
  }

  lemma {:induction false} FirstOrNone(st: Store, f: nat) returns (first: nat)
    requires ONLINE <= f <= Visible(st) && forall g :: ONLINE <= g < f ==> st.slots[g].lines == []
    ensures (forall g :: ONLINE <= g < Visible(st) ==> st.slots[g].lines == []) || FirstFault(st, first)
    decreases Visible(st) - f
  {
    first := f;
    if f < Visible(st) && st.slots[f].lines == [] {
      first := FirstOrNone(st, f + 1);
    }
  }

  lemma OnlyFirst(st: Store, first: nat)
    requires FirstFault(st, first)
    ensures forall f: nat :: FirstFault(st, f) ==> f == first
  {
  }

  lemma NamesQuoted()
    ensures Quoted(CONFIG) == "\"ConfigurationData\"" && Quoted(SESSION) == "\"ChargingSession\""
  {
  }

  lemma PickIff(d: Device, text: string)
    requires Shaped(d.store)
    ensures Pick(d).0 == Some(text) <==> IsNext(d, text)
  {
    NamesQuoted();
    var first := FirstOrNone(d.store, ONLINE);
    if NoFault(d.store) {
      FaultHeadNone(d.store, ONLINE);
    } else {
      FaultHeadIs(d.store, ONLINE, first);
      OnlyFirst(d.store, first);
    }
  }

  /** A dispatch hands exactly the next message to the publish call, and does so exactly when the
      device is online and the message was not the last one sent less than 20 seconds ago. */
  lemma DispatchIff(env: Env, d: Device, online: bool, now: int, ok: bool, text: string)
    requires Shaped(d.store) && 0 <= d.retry <= 2
    ensures var d' := Dispatch(env, d, online, now, ok);
            var due := d.lastSent != Some(text) || (now - d.lastCheck) % 0x1_0000_0000_0000_0000 >= 20000;
            && |d.attempts| <= |d'.attempts| <= |d.attempts| + 1 && d'.attempts[..|d.attempts|] == d.attempts
            && (|d'.attempts| > |d.attempts| && d'.attempts[|d.attempts|].text == text
                <==> online && IsNext(d, text) && due)
            && (online && IsNext(d, text) && due ==>
                  && d'.lastCheck == now && d'.lastSent == (if ok then Some(text) else d.lastSent)
                  && (!ok ==> d'.store == d.store && d'.retry == d.retry))
            && (|d'.attempts| == |d.attempts| ==> d' == d)
  {
    PickIff(d, text);
    DispatchIs(env, d, online, now, ok);
    if Attempts(d, online, now) {
      var a := AttemptOf(d, now, ok);
      RepeatCounts(env, d.(lastCheck := now, attempts := d.attempts + [a]), a.text, a.importance);
    }
  }

  // ---------------------------------------------------------------- retries

  /** The text is of no importance: no fault, and it quotes neither of the two names. */
  ghost predicate Unimportant(d: Device, text: string) {
    && (d.exchanged ==> NoFault(d.store))
    && !Occurs("\"ConfigurationData\"", text) && !Occurs("\"ChargingSession\"", text)
  }

  /** The third repeat in a row of an unimportant message drops its text from the files.  The third
      critical repeat only resets its counter, unless the message does not parse: then it goes too.
      A publish of another message resets the first counter and not the second. */
  lemma PublishOutcome(env: Env, d: Device, now: int, text: string)
    requires Shaped(d.store) && 0 <= d.retry <= 2 && 0 <= d.store.critical <= 2 && IsNext(d, text)
    requires d.lastSent == Some(text) ==> (now - d.lastCheck) % 0x1_0000_0000_0000_0000 >= 20000
    ensures var d', again := Dispatch(env, d, true, now, true), d.lastSent == Some(text);
            var unimportant, c := Unimportant(d, text), d.store.critical;
            && d'.retry == (if d.lastSent == None || (again && !unimportant) then d.retry
                            else if again && d.retry < 2 then d.retry + 1 else 0)
            && d'.store ==
               if !again then d.store
               else if unimportant then (if d.retry < 2 then d.store else DropText(env, d.store, text))
               else if c < 2 then d.store.(critical := c + 1)
               else if env.parse(text).Valid? then d.store.(critical := 0)
               else DropText(env, d.store.(critical := 0), text)
  {
    PickIff(d, text);
    NamesQuoted();
    DispatchIs(env, d, true, now, true);
    PickImportance(d, text);
  }

  lemma PickImportance(d: Device, text: string)
    requires Shaped(d.store) && IsNext(d, text)
    ensures Pick(d).1 == 0 <==> Unimportant(d, text)
  {
    PickIff(d, text);
    NamesQuoted();
    var first := FirstOrNone(d.store, ONLINE);
    if NoFault(d.store) {
      FaultHeadNone(d.store, ONLINE);
    } else {
      FaultHeadIs(d.store, ONLINE, first);
    }
  }

  // ---------------------------------------------------------------- created messages

  /** The file of a message: 0 for requests, 1 for a fault of type other than 0, 2 for one of the
      charger, 2 + k for one of connector k, none above connector 3. */
  function FileOf(kind: Kind): Option<nat> {
    match kind
    case Configuration => Some(0)
    case ChargerPeriodic => Some(0)
    case PcmPeriodic => Some(0)
    case Session => Some(0)
    case Fault(faultType, player) => if faultType != 0 then Some(1) else if player <= 3 then Some(2 + player) else None
  }

  /** Created at all: the configuration from boot flag 3 on, periodic data once the gate is open,
      sessions and faults at any time. */
  predicate Wanted(d: Device, kind: Kind) {
    match kind
    case Configuration => d.bootFlag == 3 || d.bootFlag == 0
    case ChargerPeriodic => d.exchanged
    case PcmPeriodic => d.exchanged
    case Session => true
    case Fault(_, _) => true
  }

  /** The name in the message. */
  function NameIn(kind: Kind): string {
    match kind
    case Configuration => "ConfigurationData"
    case ChargerPeriodic => "ChargerPeriodicData"
    case PcmPeriodic => "PCMPeriodicData"
    case Session => "ChargingSession"
    case Fault(_, _) => "FaultInformation"
  }

  /** File f has got this line at its end, whatever it lost for it; the others are as they were. */
  ghost predicate StoredIn(before: Store, after: Store, f: nat, line: string)
    requires Shaped(before) && f < |before.slots|
  {
    && Shaped(after) && |after.slots| == |before.slots|
    && after.trails[f].appended == before.trails[f].appended + [line]
    && |after.slots[f].lines| > 0 && after.slots[f].lines[|after.slots[f].lines| - 1] == line
    && forall g :: 0 <= g < |before.slots| && g != f ==>
         after.slots[g].lines == before.slots[g].lines && after.trails[g] == before.trails[g]
  }

  lemma SaveStores(env: Env, st: Store, f: nat, message: string, timestamp: string)
    requires StoreOk(env, st) && f < |st.slots|
    ensures StoredIn(st, Save(env, st, f, message, timestamp), f, Line(message, timestamp))
  {
    SaveCounts(env, st, f, message, timestamp);
    SaveElsewhere(env, st, f, message, timestamp);
    SaveHistory(env, st, f, message, timestamp);
  }

  lemma SaveHistory(env: Env, st: Store, f: nat, message: string, timestamp: string)
    requires Shaped(st) && f < |st.slots|
    ensures Save(env, st, f, message, timestamp).trails[f].appended ==
            st.trails[f].appended + [Line(message, timestamp)]
  {
  }

  lemma NamingStores(before: Store, mid: Store, f: nat, line: string)
    requires Shaped(before) && f < |before.slots| && StoredIn(before, mid, f, line)
    ensures StoredIn(before, NameFiles(mid), f, line)
  {
    CountedAlone(mid.(named := true), CONNECTORS);
  }

  /** A wanted message goes to the end of its own file, as [2,"uuid","name",payload]|timestamp; the
      other files keep their lines, and a message that is not wanted changes nothing. */
  lemma CreateOutcome(env: Env, d: Device, kind: Kind, uuid: string, payload: string, timestamp: string)
    requires StoreOk(env, d.store) && (FileOf(kind).Some? ==> FileOf(kind).value < |d.store.slots|)
    ensures Route(kind) == FileOf(kind)
    ensures var d' := Create(env, d, kind, uuid, payload, timestamp);
            var line := "[2,\"" + uuid + "\",\"" + NameIn(kind) + "\"," + payload + "]|" + timestamp;
            if !Wanted(d, kind) || FileOf(kind) == None then d' == d
            else StoredIn(d.store, d'.store, FileOf(kind).value, line)
  {
    if Wanted(d, kind) && FileOf(kind).Some? {
      var f, text := FileOf(kind).value, CallText(uuid, ActionName(kind), payload);
      TextIs(kind, uuid, payload, timestamp);
      SaveStores(env, d.store, f, text, timestamp);
      NamingStores(d.store, Save(env, d.store, f, text, timestamp), f, Line(text, timestamp));
    }
  }

  lemma TextIs(kind: Kind, uuid: string, payload: string, timestamp: string)
    ensures Line(CallText(uuid, ActionName(kind), payload), timestamp) ==
            "[2,\"" + uuid + "\",\"" + NameIn(kind) + "\"," + payload + "]|" + timestamp
  {
    assert ActionName(kind) == NameIn(kind);
    TextJoins(uuid, NameIn(kind), payload, timestamp);
  }

  lemma TextJoins(uuid: string, name: string, payload: string, timestamp: string)
    ensures Line(CallText(uuid, name, payload), timestamp) ==
            "[2,\"" + uuid + "\",\"" + name + "\"," + payload + "]|" + timestamp
  {
  }

  /** Counting changes counters only: those of the files seen from f on. */
  lemma {:induction false} CountedAlone(st: Store, f: nat)
    requires Shaped(st)
    ensures var st' := RecountFrom(st, f);
            && Shaped(st') && |st'.slots| == |st.slots| && st'.trails == st.trails
            && st'.critical == st.critical && st'.named == st.named
            && forall g :: 0 <= g < |st.slots| ==>
                 && st'.slots[g].lines == st.slots[g].lines
                 && st'.slots[g].count ==
                    if f <= g < Visible(st) then Byte(|st.slots[g].lines|) else st.slots[g].count
    decreases Visible(st) - f
  {
    if f < Visible(st) {
      CountedAlone(Recount(st, f), f + 1);
    }
  }

  lemma NamingCounts(env: Env, st: Store, mid: Store)
    requires StoreOk(env, st) && Shaped(mid) && |mid.slots| == |st.slots|
    requires mid.critical == st.critical && forall g :: 3 <= g < |st.slots| ==> mid.slots[g] == st.slots[g]
    ensures var st' := NameFiles(mid);
            && Shaped(st') && |st'.slots| == |st.slots| && st'.critical == st.critical && st'.named
            && forall g :: 3 <= g < |st.slots| ==> st'.slots[g].count == |st.slots[g].lines|
  {
    CountedAlone(mid.(named := true), CONNECTORS);
    forall g | 3 <= g < |st.slots| ensures Byte(|st.slots[g].lines|) == |st.slots[g].lines| {
      assert SlotOk(env, g, st.slots[g], st.trails[g]);
    }
  }

  /** The first configuration message of a boot is remembered, and ends the boot; no other message
      touches anything but the files.  A configuration message names the connector files and counts
      them. */
  lemma CreateBeside(env: Env, d: Device, kind: Kind, uuid: string, payload: string, timestamp: string)
    requires StoreOk(env, d.store) && (FileOf(kind).Some? ==> FileOf(kind).value < |d.store.slots|)
    ensures var d' := Create(env, d, kind, uuid, payload, timestamp);
            && (if kind == Configuration && d.bootFlag == 3
                then d' == d.(store := d'.store, bootFlag := 0, bootUuid := uuid, bootEntry := d'.bootEntry)
                     && d'.bootEntry == "[2,\"" + uuid + "\",\"ConfigurationData\"," + payload + "]"
                else d' == d.(store := d'.store))
            && Shaped(d'.store) && |d'.store.slots| == |d.store.slots| && d'.store.critical == d.store.critical
            && d'.store.named == (d.store.named || (kind == Configuration && Wanted(d, kind)))
            && (kind == Configuration && Wanted(d, kind) ==>
                  forall g :: 3 <= g < |d.store.slots| ==> d'.store.slots[g].count == |d.store.slots[g].lines|)
  {
    if Wanted(d, kind) && FileOf(kind).Some? {
      var f, text := FileOf(kind).value, CallText(uuid, ActionName(kind), payload);
      SaveElsewhere(env, d.store, f, text, timestamp);
      EntryIs(uuid, payload);
      if kind == Configuration {
        NamingCounts(env, d.store, Save(env, d.store, f, text, timestamp));
      }
    }
  }

  lemma EntryIs(uuid: string, payload: string)
    ensures CallText(uuid, CONFIG, payload) == "[2,\"" + uuid + "\",\"ConfigurationData\"," + payload + "]"
  {
  }

  // ---------------------------------------------------------------- boot and restart

  /** The boot goes on from 1 only when it is ready, and from 2 always. */
  lemma AdvanceIff(d: Device, ready: bool)
    ensures var d' := Advance(d, ready);
            && d' == d.(bootFlag := d'.bootFlag)
            && d'.bootFlag == (if d.bootFlag == 2 || (d.bootFlag == 1 && ready) then 3 else d.bootFlag)
  {
  }

  /** A restart forgets everything but the files: their lines and their history stay, the first
      three are counted, the connector files have no name and keep their old counters. */
  lemma RebootOutcome(env: Env, d: Device)
    requires StoreOk(env, d.store)
    ensures var r := Reboot(d);
            && r == Device(r.store, 0, None, 0, 1, "", false, "", [], [])
            && Shaped(r.store) && |r.store.slots| == |d.store.slots| && r.store.trails == d.store.trails
            && !r.store.named && r.store.critical == 0
            && forall g :: 0 <= g < |d.store.slots| ==>
                 && r.store.slots[g].lines == d.store.slots[g].lines
                 && r.store.slots[g].count == if g < 3 then |d.store.slots[g].lines| else d.store.slots[g].count
  {
    CountedAlone(d.store.(critical := 0, named := false), REQUEST);
    forall g | 0 <= g < |d.store.slots| ensures Byte(|d.store.slots[g].lines|) == |d.store.slots[g].lines| {
      assert SlotOk(env, g, d.store.slots[g], d.store.trails[g]);
    }
  }

  // ---------------------------------------------------------------- replies and lookups

  /** The code of each action's response: fine with a valid timestamp, else the action's own. */
  lemma PayloadCodes()
    ensures PayloadCode("ConfigurationData", true) == PayloadCode("ChargerPeriodicData", true) ==
            PayloadCode("PCMPeriodicData", true) == PayloadCode("ChargingSession", true) ==
            PayloadCode("FaultInformation", true) == ValidMsg
    ensures PayloadCode("ConfigurationData", false) == ConfigurationDataPayloadError
    ensures PayloadCode("ChargerPeriodicData", false) == PeriodicDataPayloadError
    ensures PayloadCode("PCMPeriodicData", false) == PeriodicDataPayloadError
    ensures PayloadCode("ChargingSession", false) == ChargingSessionPayloadError
    ensures PayloadCode("FaultInformation", false) == FaultLogPayloadError
  {
    assert |CONFIG| == 17 && |SESSION| == 15 && |FAULT| == 16 && |CHARGER_PERIODIC| == 19 && |PCM_PERIODIC| == 15;
    assert SESSION[0] != PCM_PERIODIC[0];
  }

  /** A message is answered as valid exactly if it is a well-formed request for the component
      status, an error report for no stored entry, a response for no stored entry, or a response
      with a valid timestamp to a stored entry of a known action.  Elements are counted modulo 256. */
  lemma ValidIff(env: Env, d: Device, inbound: Inbound)
    requires Shaped(d.store)
    ensures Validate(env, d, inbound).1 == ValidMsg <==>
            && inbound.Array?
            && var items, n := inbound.items, |inbound.items| % 256;
            && 3 <= n <= 5 && items[1].Str? && |items[1].text| <= 36
            && (n == 3 ==>
                  && items[0] == Number(3)
                  && var found := Lookup(env, d.store, items[1].text);
                     found == None || (items[2].Object? && items[2].stamped && Known(found.value)))
            && (n == 4 ==> items[0] == Number(2) && items[2] == Str("ComponentStatus")
                           && items[3].Object? && items[3].addressed)
            && (n == 5 ==> items[0] == Number(4) && items[2].Str? && items[3].Str?
                           && Lookup(env, d.store, items[1].text) == None)
  {
  }

  /** Every other message is answered by its first fault, in this order; and only a response that gets
      as far as its payload can change the device. */
  lemma ErrorCodes(env: Env, d: Device, inbound: Inbound)
    requires Shaped(d.store)
    ensures var (d', code) := Validate(env, d, inbound);
            match inbound
            case NotJson => code == InvalidJsonFormat && d' == d
            case NotArray => code == JsonArrayNotFound && d' == d
            case Array(items) =>
              var n := |items| % 256;
              if n < 3 || n > 5 then code == ElementsOutOfRange && d' == d
              else if items[0] != Number(if n == 3 then 3 else if n == 4 then 2 else 4) then
                code == InvalidMessageTypeId && d' == d
              else if !items[1].Str? || |items[1].text| > 36 then code == InvalidMessageId && d' == d
              else if n == 4 then
                && d' == d
                && code == if !items[2].Str? || items[2].text == "" then InvalidAction
                           else if !items[3].Object? then InvalidPayload
                           else if items[2].text != "ComponentStatus" then InvalidMsg
                           else if items[3].addressed then ValidMsg else ComponentStatusPayloadError
              else
                var found := Lookup(env, d.store, items[1].text);
                if n == 5 then
                  && d' == d
                  && code == if !items[2].Str? || !items[3].Str? then InvalidCallErrorFormat
                             else if found == None then ValidMsg else InvalidMsg
                else if found == None then code == ValidMsg && d' == d
                else if !items[2].Object? then code == InvalidPayload && d' == d
                else
                  && code == (if Known(found.value) then PayloadCode(found.value, items[2].stamped) else InvalidMsg)
                  && (!items[2].stamped && StaysUntilValid(found.value) ==> d' == d)
  {
  }

  /** Entries of these actions stay until their response is valid. */
  predicate StaysUntilValid(action: string) {
    action in {"ConfigurationData", "ChargingSession", "FaultInformation"}
  }

  predicate Known(action: string) {
    action in {"ConfigurationData", "ChargerPeriodicData", "PCMPeriodicData", "ChargingSession", "FaultInformation"}
  }

  /** The lookup takes the first line with the UUID in the first file that is counted and has one,
      if that line has an action. */
  lemma LookupFirst(env: Env, st: Store, uuid: string, f: nat, k: nat)
    requires f < Visible(st) <= |st.slots| && k < |st.slots[f].lines| && st.slots[f].count > 0
    requires UuidOf(env, st.slots[f].lines[k]) == Some(uuid) && ActionOf(env, st.slots[f].lines[k]).Some?
    requires forall j :: 0 <= j < k ==> UuidOf(env, st.slots[f].lines[j]) != Some(uuid)
    requires forall g, x :: 0 <= g < f && x in st.slots[g].lines ==>
               st.slots[g].count <= 0 || UuidOf(env, x) != Some(uuid)
    ensures Lookup(env, st, uuid) == ActionOf(env, st.slots[f].lines[k])
  {
    LookupSkips(env, st, uuid, 0, f);
    SearchFirst(env, st.slots[f].lines, uuid, k);
  }

  lemma {:induction false} SearchFirst(env: Env, lines: seq<string>, uuid: string, k: nat)
    requires k < |lines| && UuidOf(env, lines[k]) == Some(uuid)
    requires forall j :: 0 <= j < k ==> UuidOf(env, lines[j]) != Some(uuid)
    ensures SearchFile(env, lines, uuid) == ActionOf(env, lines[k])
  {
    if k > 0 {
      SearchFirst(env, lines[1..], uuid, k - 1);
    }
  }

  lemma {:induction false} SearchNone(env: Env, lines: seq<string>, uuid: string)
    requires forall x :: x in lines ==> UuidOf(env, x) != Some(uuid)
    ensures SearchFile(env, lines, uuid) == None
  {
    if lines != [] {
      assert forall x :: x in lines[1..] ==> x in lines;
      SearchNone(env, lines[1..], uuid);
    }
  }

  lemma {:induction false} LookupSkips(env: Env, st: Store, uuid: string, f: nat, stop: nat)
    requires f <= stop <= Visible(st) <= |st.slots|
    requires forall g, x :: f <= g < stop && x in st.slots[g].lines ==>
               st.slots[g].count <= 0 || UuidOf(env, x) != Some(uuid)
    ensures LookupFrom(env, st, uuid, f) == LookupFrom(env, st, uuid, stop)
    decreases stop - f
  {
    if f < stop {
      if st.slots[f].count > 0 {
        SearchNone(env, st.slots[f].lines, uuid);
      }
      LookupSkips(env, st, uuid, f + 1, stop);
    }
  }
}
