/** What the running totals in the counters do to a run of the device. */
module DeviceTotals {
  import opened Wrappers
  import opened Text
  import opened Entries
  import opened StoreModel
  import opened StoreFacts
  import opened DeviceModel
  import opened DeviceFacts
  import opened DeviceRuns
  import opened DeviceTheorems
  import opened DeviceQueues

  // ---------------------------------------------------------------- once the gate is open

  lemma {:induction false} NoFaultHead(st: Store, f: nat)
    requires FaultHeadFrom(st, f).None? && st.named
    ensures forall g :: f <= g < |st.slots| ==> st.slots[g].lines == []
    decreases |st.slots| - f
  {
    if f < |st.slots| {
      NoFaultHead(st, f + 1);
    }
  }

  /** Once the gate is open faults are sent first, so a line is dropped for retries only while no
      fault is stored: the totals that the drop leaves can then evict none. */
  lemma OpenDropsWithoutFaults(env: Env, d: Device, online: bool, now: int, ok: bool, f: nat, x: string)
    requires DeviceOk(env, d) && d.lastCheck <= now < TICKS && d.exchanged
    requires OneDrop(env, d, Dispatch(env, d, online, now, ok), f, x)
    ensures f == REQUEST && forall g :: ONLINE <= g < |d.store.slots| ==> d.store.slots[g].lines == []
  {
    DispatchIs(env, d, online, now, ok);
    if FaultHeadFrom(d.store, ONLINE).Some? {
      var a := AttemptOf(d, now, ok);
      RepeatCounts(env, d.(lastCheck := now, attempts := d.attempts + [a]), a.text, a.importance);
      assert false;
    }
    NoFaultHead(d.store, ONLINE);
  }

  // ---------------------------------------------------------------- a restart with requests left

  const ONLINE_FAULT: Kind := Fault(1, 0)

  function FaultLine(uuid: string, payload: string, timestamp: string): string {
    Written(ONLINE_FAULT, uuid, payload, timestamp)
  }

  function Publishes(now: int): seq<Step> {
    [DoDispatch(true, now, true), DoDispatch(true, now + RETRY_INTERVAL, true),
     DoDispatch(true, now + 2 * RETRY_INTERVAL, true), DoDispatch(true, now + 3 * RETRY_INTERVAL, true)]
  }

  /** A restart, a fault, and four publishes of the request that heads the file. */
  function RestartAndRetry(uuid: string, payload: string, timestamp: string, now: int): seq<Step> {
    [DoReboot, DoCreate(ONLINE_FAULT, uuid, payload, timestamp)] + Publishes(now)
  }

  /** The head of the request file is its own next message, of no importance. */
  predicate HeadsUnimportant(d: Device, text: string) {
    && Shaped(d.store) && !d.exchanged && d.store.slots[REQUEST].lines != []
    && Head(d.store.slots[REQUEST].lines[0]) == text && Importance(text) == 0
  }

  lemma FirstPublish(env: Env, d: Device, text: string, now: int)
    requires HeadsUnimportant(d, text) && d.lastSent == None
    ensures var d' := Dispatch(env, d, true, now, true);
            && d'.store == d.store && d'.exchanged == d.exchanged
            && d'.lastSent == Some(text) && d'.retry == d.retry && d'.lastCheck == now
  {
    DispatchIs(env, d, true, now, true);
  }

  lemma NextPublish(env: Env, d: Device, text: string, now: int)
    requires HeadsUnimportant(d, text) && d.lastSent == Some(text) && 0 <= d.retry <= 2
    requires now == d.lastCheck + RETRY_INTERVAL
    ensures var d' := Dispatch(env, d, true, now, true);
            && d'.store == (if d.retry == 2 then DropText(env, d.store, text) else d.store)
            && d'.exchanged == d.exchanged && d'.lastSent == Some(text) && d'.lastCheck == now
            && d'.retry == (if d.retry == 2 then 0 else d.retry + 1)
  {
    DispatchIs(env, d, true, now, true);
    var a := AttemptOf(d, now, true);
    RepeatCounts(env, d.(lastCheck := now, attempts := d.attempts + [a]), text, 0);
  }

  lemma FourPublishes(env: Env, d: Device, text: string, now: int) returns (r: Device)
    requires DeviceOk(env, d) && LegalRun(env, d, Publishes(now))
    requires HeadsUnimportant(d, text) && d.lastSent == None && d.retry == 0
    ensures r == Run(env, d, Publishes(now)) && DeviceOk(env, r)
    ensures r.store == DropText(env, d.store, text) && !r.exchanged
  {
    var steps := Publishes(now);
    assert steps[1..][1..] == steps[2..] && steps[2..][1..] == steps[3..] && steps[3..][1..] == [];
    var d1 := RunFirst(env, d, steps);
    FirstPublish(env, d, text, now);
    var d2 := RunFirst(env, d1, steps[1..]);
    NextPublish(env, d1, text, now + RETRY_INTERVAL);
    var d3 := RunFirst(env, d2, steps[2..]);
    NextPublish(env, d2, text, now + 2 * RETRY_INTERVAL);
    r := RunFirst(env, d3, steps[3..]);
    NextPublish(env, d3, text, now + 3 * RETRY_INTERVAL);
  }

  /** After the restart and the fault: the requests are as before, and the fault is alone in its
      file, both counted exactly. */
  lemma FaultAlone(env: Env, d: Device, uuid: string, payload: string, timestamp: string) returns (r: Device)
    requires DeviceOk(env, d) && d.store.slots[ONLINE].lines == []
    requires Legal(env, Reboot(d), DoCreate(ONLINE_FAULT, uuid, payload, timestamp))
    ensures Shaped(Reboot(d).store) && r == Next(env, Reboot(d), DoCreate(ONLINE_FAULT, uuid, payload, timestamp))
    ensures Shaped(r.store) && r.store.slots[REQUEST].lines == d.store.slots[REQUEST].lines
    ensures r.store.slots[ONLINE] == Slot([FaultLine(uuid, payload, timestamp)], 1)
    ensures !r.exchanged && r.lastSent == None && r.retry == 0
  {
    MarksAlone(env, d.store, 0, false);
    RecountKeeps(env, d.store.(critical := 0, named := false), REQUEST);
    r := Next(env, Reboot(d), DoCreate(ONLINE_FAULT, uuid, payload, timestamp));
  }

  lemma HeadDropped(env: Env, st: Store, target: string)
    requires Shaped(st) && StoreIdentified(env, st)
    requires st.slots[REQUEST].lines != [] && target == Head(st.slots[REQUEST].lines[0])
    ensures var st' := DropText(env, st, target);
            && Shaped(st') && |st'.slots| == |st.slots|
            && st'.slots[REQUEST].lines == st.slots[REQUEST].lines[1..]
            && st'.slots[ONLINE].lines == st.slots[ONLINE].lines
  {
    var requests, st' := st.slots[REQUEST].lines, DropText(env, st, target);
    DropExact(env, st, REQUEST, requests[0]);
    assert RemovedIn(env, st, st', REQUEST, requests[0], Dropped, REQUEST);
    assert RemovedIn(env, st, st', REQUEST, requests[0], Dropped, ONLINE);
    assert ApartFile(env, requests);
    ApartIsDistinct(env, requests);
    KeptOnce(env, requests, 0);
    assert requests[..0] + requests[1..] == requests[1..];
  }

  /** What the drop leaves in the fault's counter: the number of requests that there were. */
  lemma TotalAfterDrop(env: Env, st: Store, fault: string, target: string)
    requires StoreOk(env, st) && StoreIdentified(env, st) && st.slots[ONLINE].lines == [fault]
    requires st.slots[REQUEST].lines != [] && target == Head(st.slots[REQUEST].lines[0])
    ensures var st' := DropText(env, st, target);
            && Shaped(st') && |st'.slots| == |st.slots|
            && st'.slots[REQUEST].lines == st.slots[REQUEST].lines[1..]
            && st'.slots[ONLINE] == Slot([fault], |st.slots[REQUEST].lines|)
  {
    var st' := DropText(env, st, target);
    HeadDropped(env, st, target);
    DropLines(env, st, target, REQUEST, 0);
    assert DroppedIn(env, target, st, st', REQUEST) && DroppedIn(env, target, st, st', ONLINE);
    DropCounts(env, st, target, ONLINE);
    assert KeptUpTo(env, st, target, REQUEST) == KeptCount(env, st, target, REQUEST);
  }

  lemma NextFault(env: Env, st: Store, fault: string, message: string, timestamp: string)
    requires StoreOk(env, st) && st.slots[ONLINE].lines == [fault]
    ensures Save(env, st, ONLINE, message, timestamp).slots[ONLINE].lines ==
            if st.slots[ONLINE].count >= 50 then [Line(message, timestamp)] else [fault, Line(message, timestamp)]
  {
    assert SlotOk(env, ONLINE, st.slots[ONLINE], st.trails[ONLINE]);
    if st.slots[ONLINE].count >= 50 {
      OnlyLineEvicted(env, st, ONLINE, fault, message, timestamp);
    } else {
      SaveSlot(env, st, ONLINE, message, timestamp);
    }
  }

  lemma RequestRetried(env: Env, d: Device, uuid: string, payload: string, timestamp: string, now: int)
    returns (r: Device)
    requires DeviceOk(env, d) && d.store.slots[REQUEST].lines != [] && d.store.slots[ONLINE].lines == []
    requires Importance(Head(d.store.slots[REQUEST].lines[0])) == 0
    requires LegalRun(env, d, RestartAndRetry(uuid, payload, timestamp, now))
    ensures r == Run(env, d, RestartAndRetry(uuid, payload, timestamp, now)) && DeviceOk(env, r)
    ensures var requests := d.store.slots[REQUEST].lines;
            && r.store.slots[REQUEST].lines == requests[1..]
            && r.store.slots[ONLINE] == Slot([FaultLine(uuid, payload, timestamp)], |requests|)
  {
    var steps := RestartAndRetry(uuid, payload, timestamp, now);
    assert steps[1..][1..] == Publishes(now);
    var d1 := RunFirst(env, d, steps);
    var d2 := RunFirst(env, d1, steps[1..]);
    var alone := FaultAlone(env, d, uuid, payload, timestamp);
    var text := Head(d.store.slots[REQUEST].lines[0]);
    r := FourPublishes(env, d2, text, now);
    TotalAfterDrop(env, d2.store, FaultLine(uuid, payload, timestamp), text);
  }

  /** The totals do their harm in a run: requests are left from an earlier boot, the first of no
      importance; the device restarts and stores a fault; the request is published four times and
      dropped.  The next fault evicts the only one exactly if 50 or more requests were left. */
  lemma TotalsEvictOnlyFaultIff(env: Env, d: Device, u1: string, u2: string, payload: string,
                                t1: string, t2: string, now: int)
    requires DeviceOk(env, d) && d.store.slots[REQUEST].lines != [] && d.store.slots[ONLINE].lines == []
    requires Importance(Head(d.store.slots[REQUEST].lines[0])) == 0
    requires LegalRun(env, d, RestartAndRetry(u1, payload, t1, now))
    requires Legal(env, Run(env, d, RestartAndRetry(u1, payload, t1, now)), DoCreate(ONLINE_FAULT, u2, payload, t2))
    ensures var r, requests := Run(env, d, RestartAndRetry(u1, payload, t1, now)), d.store.slots[REQUEST].lines;
            && Shaped(r.store) && r.store.slots[REQUEST].lines == requests[1..]
            && r.store.slots[ONLINE].lines == [FaultLine(u1, payload, t1)]
            && Next(env, r, DoCreate(ONLINE_FAULT, u2, payload, t2)).store.slots[ONLINE].lines ==
               if |requests| >= 50 then [FaultLine(u2, payload, t2)]
               else [FaultLine(u1, payload, t1), FaultLine(u2, payload, t2)]
  {
    var r := RequestRetried(env, d, u1, payload, t1, now);
    NextFault(env, r.store, FaultLine(u1, payload, t1), CallText(u2, FAULT, payload), t2);
  }

  // ---------------------------------------------------------------- such requests are left

  /** The boot, the configuration message, and the response that opens the gate. */
  function OpenGateSteps(uuid: string, payload: string, timestamp: string): seq<Step> {
    [DoAdvance(true), DoCreate(Configuration, uuid, payload, timestamp), DoReceive(Response(uuid, true, true))]
  }

  function Periodics(uuids: seq<string>, payload: string, timestamp: string): seq<Step> {
    if uuids == [] then []
    else [DoCreate(ChargerPeriodic, uuids[0], payload, timestamp)] + Periodics(uuids[1..], payload, timestamp)
  }

  function PeriodicLines(uuids: seq<string>, payload: string, timestamp: string): (lines: seq<string>)
    ensures |lines| == |uuids|
  {
    if uuids == [] then []
    else [Written(ChargerPeriodic, uuids[0], payload, timestamp)] + PeriodicLines(uuids[1..], payload, timestamp)
  }

  lemma {:induction false} RunJoin(env: Env, d: Device, a: seq<Step>, b: seq<Step>)
    requires LegalRun(env, d, a + b)
    ensures LegalRun(env, d, a) && LegalRun(env, Run(env, d, a), b)
    ensures Run(env, d, a + b) == Run(env, Run(env, d, a), b)
    decreases |a|
  {
    if a == [] {
      assert a + b == b;
    } else {
      assert (a + b)[1..] == a[1..] + b;
      RunJoin(env, Next(env, d, a[0]), a[1..], b);
    }
  }

  /** The configuration message is alone in the files, which are counted exactly. */
  predicate OnlyConfiguration(d: Device, uuid: string, line: string) {
    && Shaped(d.store) && !d.exchanged && d.bootUuid == uuid && d.store.named
    && d.store.slots[REQUEST] == Slot([line], 1) && d.store.slots[ONLINE] == Slot([], 0)
  }

  lemma ConfigurationAlone(env: Env, d: Device, uuid: string, payload: string, timestamp: string)
    requires DeviceOk(env, d) && Legal(env, d, DoCreate(Configuration, uuid, payload, timestamp)) && d.bootFlag == 3
    requires !d.exchanged && d.store.slots[REQUEST] == Slot([], 0) && d.store.slots[ONLINE] == Slot([], 0)
    ensures OnlyConfiguration(Next(env, d, DoCreate(Configuration, uuid, payload, timestamp)), uuid,
                              Written(Configuration, uuid, payload, timestamp))
  {
    var st := Save(env, d.store, REQUEST, CallText(uuid, CONFIG, payload), timestamp);
    SaveKeeps(env, d.store, REQUEST, CallText(uuid, CONFIG, payload), timestamp);
    CriticalNamed(env, st);
    RecountKeeps(env, st.(named := true), CONNECTORS);
  }

  lemma CriticalNamed(env: Env, st: Store)
    requires StoreOk(env, st)
    ensures StoreOk(env, st.(named := true))
  {
    forall f | 0 <= f < |st.slots| ensures SlotOk(env, f, st.slots[f], st.trails[f]) {
    }
  }

  lemma ConfigurationAnswered(env: Env, d: Device, uuid: string, line: string)
    requires DeviceOk(env, d) && OnlyConfiguration(d, uuid, line) && 0 < |uuid| <= 36
    requires UuidOf(env, line) == Some(uuid) && ActionOf(env, line) == Some(CONFIG)
    ensures var r := Validate(env, d, Response(uuid, true, true)).0;
            && Shaped(r.store) && r.exchanged
            && r.store.slots[REQUEST] == Slot([], 0) && r.store.slots[ONLINE] == Slot([], 0)
  {
    assert |CONFIG| == 17 && |FAULT| == 16;
    LookupIs(env, d.store, uuid, REQUEST, line);
    KeptOnly(env, uuid, line);
  }

  lemma KeptOnly(env: Env, uuid: string, line: string)
    requires UuidOf(env, line) == Some(uuid)
    ensures Kept(env, ByUuid(uuid), [line]) == []
  {
    assert [line][..0] == [];
  }

  lemma GateOpened(env: Env, connectors: nat, uuid: string, payload: string, timestamp: string) returns (r: Device)
    requires connectors <= MAX_CONNECTORS && |uuid| <= 36
    requires LegalRun(env, Fresh(connectors), OpenGateSteps(uuid, payload, timestamp))
    ensures r == Run(env, Fresh(connectors), OpenGateSteps(uuid, payload, timestamp)) && DeviceOk(env, r) && r.exchanged
    ensures r.store.slots[REQUEST] == Slot([], 0) && r.store.slots[ONLINE] == Slot([], 0)
  {
    var steps := OpenGateSteps(uuid, payload, timestamp);
    assert steps[1..][1..] == steps[2..] && steps[2..][1..] == [];
    FreshOk(env, connectors);
    var d1 := RunFirst(env, Fresh(connectors), steps);
    var d2 := RunFirst(env, d1, steps[1..]);
    ConfigurationAlone(env, d1, uuid, payload, timestamp);
    NewLine(env, Configuration, uuid, payload, timestamp, REQUEST);
    r := RunFirst(env, d2, steps[2..]);
    ConfigurationAnswered(env, d2, uuid, Written(Configuration, uuid, payload, timestamp));
  }

  lemma PeriodicStored(env: Env, d: Device, uuid: string, payload: string, timestamp: string)
    requires Shaped(d.store) && d.exchanged && Legal(env, d, DoCreate(ChargerPeriodic, uuid, payload, timestamp))
    requires d.store.slots[REQUEST].count == |d.store.slots[REQUEST].lines| < 100
    ensures var lines := d.store.slots[REQUEST].lines;
            var d' := Next(env, d, DoCreate(ChargerPeriodic, uuid, payload, timestamp));
            && Shaped(d'.store) && d'.exchanged
            && d'.store.slots[REQUEST] ==
               Slot(lines + [Written(ChargerPeriodic, uuid, payload, timestamp)], |lines| + 1)
            && d'.store.slots[ONLINE] == d.store.slots[ONLINE]
  {
  }

  lemma PeriodicFirst(uuids: seq<string>, payload: string, timestamp: string)
    requires uuids != []
    ensures var steps := Periodics(uuids, payload, timestamp);
            && steps != [] && steps[0] == DoCreate(ChargerPeriodic, uuids[0], payload, timestamp)
            && steps[1..] == Periodics(uuids[1..], payload, timestamp)
  {
  }

  lemma PeriodicLinesFirst(before: seq<string>, uuids: seq<string>, payload: string, timestamp: string)
    requires uuids != []
    ensures before + PeriodicLines(uuids, payload, timestamp) ==
            before + [Written(ChargerPeriodic, uuids[0], payload, timestamp)]
                   + PeriodicLines(uuids[1..], payload, timestamp)
  {
  }

  lemma {:induction false} PeriodicsPile(env: Env, d: Device, uuids: seq<string>, payload: string, timestamp: string,
                                         steps: seq<Step>)
    requires DeviceOk(env, d) && d.exchanged && LegalRun(env, d, steps) && steps == Periodics(uuids, payload, timestamp)
    requires d.store.slots[REQUEST].count == |d.store.slots[REQUEST].lines| <= 100 - |uuids|
    ensures var r := Run(env, d, steps);
            && Shaped(r.store)
            && r.store.slots[REQUEST].lines == d.store.slots[REQUEST].lines + PeriodicLines(uuids, payload, timestamp)
            && r.store.slots[ONLINE] == d.store.slots[ONLINE]
    decreases |uuids|
  {
    if uuids != [] {
      PeriodicFirst(uuids, payload, timestamp);
      var d1 := RunFirst(env, d, steps);
      PeriodicStored(env, d, uuids[0], payload, timestamp);
      PeriodicsPile(env, d1, uuids[1..], payload, timestamp, steps[1..]);
      PeriodicLinesFirst(d.store.slots[REQUEST].lines, uuids, payload, timestamp);
    }
  }

  /** A run from an empty device that leaves up to a hundred periodic messages and no fault. */
  lemma LeftoversReached(env: Env, connectors: nat, uuid: string, uuids: seq<string>,
                         payload: string, timestamp: string)
    requires connectors <= MAX_CONNECTORS && |uuid| <= 36 && |uuids| <= 100
    requires LegalRun(env, Fresh(connectors),
                      OpenGateSteps(uuid, payload, timestamp) + Periodics(uuids, payload, timestamp))
    ensures var r := Run(env, Fresh(connectors),
                         OpenGateSteps(uuid, payload, timestamp) + Periodics(uuids, payload, timestamp));
            && DeviceOk(env, r) && r.store.slots[ONLINE].lines == []
            && r.store.slots[REQUEST].lines == PeriodicLines(uuids, payload, timestamp)
  {
    var first, rest := OpenGateSteps(uuid, payload, timestamp), Periodics(uuids, payload, timestamp);
    RunJoin(env, Fresh(connectors), first, rest);
    FreshOk(env, connectors);
    var d := GateOpened(env, connectors, uuid, payload, timestamp);
    PeriodicsPile(env, d, uuids, payload, timestamp, rest);
    RunKeeps(env, d, rest);
  }
}
