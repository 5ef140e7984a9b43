/** The claims about the messaging side, for every run from an empty store. */
module DeviceTheorems {
  import opened Wrappers
  import opened Text
  import opened Entries
  import opened StoreModel
  import opened StoreFacts
  import opened DeviceModel
  import opened DeviceFacts
  import opened DeviceRuns

  // ---------------------------------------------------------------- runs

  ghost predicate LegalRun(env: Env, d: Device, steps: seq<Step>)
    decreases |steps|
  {
    steps == [] ||
    (Shaped(d.store) && Legal(env, d, steps[0]) && LegalRun(env, Next(env, d, steps[0]), steps[1..]))
  }

  ghost function Run(env: Env, d: Device, steps: seq<Step>): Device
    requires LegalRun(env, d, steps)
    decreases |steps|
  {
    if steps == [] then d else Run(env, Next(env, d, steps[0]), steps[1..])
  }

  lemma RebootKeeps(env: Env, d: Device)
    requires DeviceOk(env, d)
    ensures DeviceOk(env, Reboot(d))
  {
    MarksAlone(env, d.store, 0, false);
    RecountKeepsEntries(env, d.store.(critical := 0, named := false), REQUEST);
  }

  lemma StepKeeps(env: Env, d: Device, step: Step)
    requires DeviceOk(env, d) && Legal(env, d, step)
    ensures DeviceOk(env, Next(env, d, step))
  {
    match step
    case DoAdvance(ready) =>
      ShrinksItself(d.store);
      AdvanceKeepsGate(env, d, ready);
    case DoDispatch(online, now, ok) =>
      DispatchKeepsStore(env, d, online, now, ok);
      DispatchKeepsLog(env, d, online, now, ok);
      DispatchKeepsGate(env, d, online, now, ok);
    case DoCreate(kind, uuid, payload, timestamp) =>
      CreateKeeps(env, d, kind, uuid, payload, timestamp);
    case DoReceive(inbound) =>
      ReceiveKeeps(env, d, inbound);
    case DoReboot =>
      RebootKeeps(env, d);
  }

  lemma AdvanceKeepsGate(env: Env, d: Device, ready: bool)
    requires GateOk(env, d)
    ensures GateOk(env, Advance(d, ready))
  {
    var d' := Advance(d, ready);
    if d.bootUuid != "" {
      forall f | 0 <= f < |d.store.slots| ensures BootEntryIn(env, d', d'.store.slots[f].lines) {
        assert BootEntryIn(env, d, d.store.slots[f].lines);
      }
    }
  }

  lemma {:induction false} RunKeeps(env: Env, d: Device, steps: seq<Step>)
    requires DeviceOk(env, d) && LegalRun(env, d, steps)
    ensures DeviceOk(env, Run(env, d, steps))
    decreases |steps|
  {
    if steps != [] {
      StepKeeps(env, d, steps[0]);
      RunKeeps(env, Next(env, d, steps[0]), steps[1..]);
    }
  }

  lemma RunFirst(env: Env, d: Device, steps: seq<Step>) returns (d1: Device)
    requires DeviceOk(env, d) && LegalRun(env, d, steps) && steps != []
    ensures Legal(env, d, steps[0]) && d1 == Next(env, d, steps[0]) && DeviceOk(env, d1)
    ensures LegalRun(env, d1, steps[1..]) && Run(env, d, steps) == Run(env, d1, steps[1..])
  {
    d1 := Next(env, d, steps[0]);
    StepKeeps(env, d, steps[0]);
  }

  lemma FreshOk(env: Env, connectors: nat)
    requires connectors <= MAX_CONNECTORS
    ensures DeviceOk(env, Fresh(connectors))
  {
    var d := Fresh(connectors);
    forall f | 0 <= f < |d.store.slots| ensures SlotOk(env, f, d.store.slots[f], d.store.trails[f]) {
    }
  }

  // ---------------------------------------------------------------- lookups

  lemma {:induction false} SearchFinds(env: Env, lines: seq<string>, uuid: string, x: string)
    requires x in lines && UuidOf(env, x) == Some(uuid) && AllIdentified(env, lines)
    ensures SearchFile(env, lines, uuid).Some?
  {
    assert Identified(env, lines[0]);
    if UuidOf(env, lines[0]) != Some(uuid) {
      assert forall y :: y in lines[1..] ==> y in lines;
      SearchFinds(env, lines[1..], uuid, x);
    }
  }

  lemma {:induction false} ScanFinds(env: Env, st: Store, uuid: string, f: nat, stop: nat, g: nat, x: string)
    requires StoreIdentified(env, st) && f <= g < stop <= |st.slots|
    requires x in st.slots[g].lines && UuidOf(env, x) == Some(uuid)
    ensures ScanFrom(env, st, uuid, f, stop).Some?
    decreases g - f
  {
    if f == g {
      assert AllIdentified(env, st.slots[g].lines);
      SearchFinds(env, st.slots[g].lines, uuid, x);
    } else {
      ScanFinds(env, st, uuid, f + 1, stop, g, x);
    }
  }

  lemma LookupIs(env: Env, st: Store, uuid: string, f: nat, line: string)
    requires EntriesOk(env, st) && f < Visible(st) && line in st.slots[f].lines && UuidOf(env, line) == Some(uuid)
    ensures Lookup(env, st, uuid) == ActionOf(env, line) && ActionOf(env, line).Some?
  {
    ScanFinds(env, st, uuid, REQUEST, Visible(st), f, line);
    GuardedLookupSeesAll(env, st, uuid, REQUEST);
    var g, x := LookupFound(env, st, uuid);
    UuidSingles(env, st, f, line, uuid);
    assert Hits(env, ByUuid(uuid), x);
    assert AllIdentified(env, st.slots[f].lines) && Identified(env, line);
  }

  lemma {:induction false} ScanMisses(env: Env, st: Store, uuid: string, f: nat, stop: nat)
    requires stop <= |st.slots|
    requires forall g, x :: f <= g < stop && x in st.slots[g].lines ==> UuidOf(env, x) != Some(uuid)
    ensures ScanFrom(env, st, uuid, f, stop) == None
    decreases stop - f
  {
    if f < stop {
      SearchMisses(env, st.slots[f].lines, uuid);
      ScanMisses(env, st, uuid, f + 1, stop);
    }
  }

  lemma {:induction false} ScanSplit(env: Env, st: Store, uuid: string, f: nat, mid: nat, stop: nat)
    requires f <= mid <= stop <= |st.slots|
    ensures ScanFrom(env, st, uuid, f, stop) ==
            (if ScanFrom(env, st, uuid, f, mid).Some? then ScanFrom(env, st, uuid, f, mid)
             else ScanFrom(env, st, uuid, mid, stop))
    decreases mid - f
  {
    if f < mid {
      ScanSplit(env, st, uuid, f + 1, mid, stop);
    }
  }

  /** No connector file holds an entry with this UUID. */
  ghost predicate NoConnectorEntry(env: Env, st: Store, uuid: string) {
    forall g, x :: CONNECTORS <= g < |st.slots| && x in st.slots[g].lines ==> UuidOf(env, x) != Some(uuid)
  }

  /** The lookup that skips empty counters, and connector files that have no name yet, is the
      plain scan of all files exactly when the names exist or no connector entry has the UUID. */
  lemma LookupIsScanIff(env: Env, st: Store, uuid: string)
    requires EntriesOk(env, st)
    ensures Lookup(env, st, uuid) == Scan(env, st, uuid) <==> st.named || NoConnectorEntry(env, st, uuid)
  {
    GuardedLookupSeesAll(env, st, uuid, REQUEST);
    if !st.named {
      ScanSplit(env, st, uuid, REQUEST, CONNECTORS, |st.slots|);
      if NoConnectorEntry(env, st, uuid) {
        ScanMisses(env, st, uuid, CONNECTORS, |st.slots|);
      } else {
        var g, x :| CONNECTORS <= g < |st.slots| && x in st.slots[g].lines && UuidOf(env, x) == Some(uuid);
        ScanFinds(env, st, uuid, REQUEST, |st.slots|, g, x);
        HiddenIsNotFound(env, st, uuid, g, x);
      }
    }
  }

  /** An entry of a file without a name is not found. */
  lemma HiddenIsNotFound(env: Env, st: Store, uuid: string, g: nat, x: string)
    requires EntriesOk(env, st) && Visible(st) <= g < |st.slots|
    requires x in st.slots[g].lines && UuidOf(env, x) == Some(uuid)
    ensures Lookup(env, st, uuid) == None
  {
    if Lookup(env, st, uuid).Some? {
      var h, y := LookupFound(env, st, uuid);
      UuidSingles(env, st, g, x, uuid);
      assert Hits(env, ByUuid(uuid), y);
    }
  }

  // ---------------------------------------------------------------- claims for every run

  /** In every run, each file's lines are at most its counter and its cap; they are a
      subsequence of everything appended; and everything appended is exactly what is present,
      answered, evicted or dropped. */
  lemma StoreInEveryRun(env: Env, connectors: nat, steps: seq<Step>, f: nat)
    requires connectors <= MAX_CONNECTORS && LegalRun(env, Fresh(connectors), steps)
    ensures var st := Run(env, Fresh(connectors), steps).store;
            Shaped(st) && (f < |st.slots| ==>
              var slot, trail := st.slots[f], st.trails[f];
              && |slot.lines| <= slot.count <= 255 && |slot.lines| <= (if f == REQUEST then 100 else 50)
              && Subseq(slot.lines, trail.appended)
              && multiset(trail.appended) == multiset(slot.lines) + trail.answered + trail.evicted + trail.dropped)
  {
    FreshOk(env, connectors);
    RunKeeps(env, Fresh(connectors), steps);
    var st := Run(env, Fresh(connectors), steps).store;
    if f < |st.slots| {
      assert SlotOk(env, f, st.slots[f], st.trails[f]);
    }
  }

  /** In every run the lookup by UUID is the plain scan of all files, exactly when the connector
      files are named or none of them holds the UUID; and they are named from this boot's first
      configuration message on. */
  lemma LookupInEveryRun(env: Env, connectors: nat, steps: seq<Step>, uuid: string)
    requires connectors <= MAX_CONNECTORS && LegalRun(env, Fresh(connectors), steps)
    ensures var d := Run(env, Fresh(connectors), steps);
            && (Lookup(env, d.store, uuid) == Scan(env, d.store, uuid) <==>
                d.store.named || NoConnectorEntry(env, d.store, uuid))
            && (d.store.named <==> d.bootFlag == 0)
  {
    FreshOk(env, connectors);
    RunKeeps(env, Fresh(connectors), steps);
    LookupIsScanIff(env, Run(env, Fresh(connectors), steps).store, uuid);
  }

  /** In every run, both retry counters stay below 3 between steps; every drop follows four
      publishes of its text in a row, each repeat a retry interval after the attempt before
      it; and no entry of a critical action was ever dropped. */
  lemma RetriesInEveryRun(env: Env, connectors: nat, steps: seq<Step>)
    requires connectors <= MAX_CONNECTORS && LegalRun(env, Fresh(connectors), steps)
    ensures var d := Run(env, Fresh(connectors), steps);
            && 0 <= d.retry <= 2 && 0 <= d.store.critical <= 2
            && Throttled(d.attempts)
            && (forall i :: 0 <= i < |d.drops| ==> DropEarned(d.attempts, d.drops[i]))
            && (forall f, x :: 0 <= f < |d.store.trails| && x in d.store.trails[f].dropped ==>
                  ActionOf(env, x).Some? && !Critical(ActionOf(env, x).value))
  {
    FreshOk(env, connectors);
    RunKeeps(env, Fresh(connectors), steps);
    var d := Run(env, Fresh(connectors), steps);
    forall f, x | 0 <= f < |d.store.trails| && x in d.store.trails[f].dropped
      ensures ActionOf(env, x).Some? && !Critical(ActionOf(env, x).value)
    {
      assert NoCriticalDropped(env, d.store.trails[f]);
    }
  }

  /** In every run, of everything attempted since the last restart, by its own action: no fault
      before the gate opens, and a charging session then only if its text quotes the configuration's name; after
      it, a fault exactly when some fault file held an entry. */
  lemma OrderInEveryRun(env: Env, connectors: nat, steps: seq<Step>, i: nat)
    requires connectors <= MAX_CONNECTORS && LegalRun(env, Fresh(connectors), steps)
    ensures var d := Run(env, Fresh(connectors), steps);
            i < |d.attempts| ==>
              var a := d.attempts[i];
              && env.parse(a.text).Valid? && env.parse(a.text).action.Some?
              && var action := env.parse(a.text).action.value;
              && (!a.gateOpen ==> action != FAULT)
              && (!a.gateOpen && action == SESSION ==> Occurs(Quoted(CONFIG), a.text))
              && (a.gateOpen ==> (action == FAULT <==> a.faultWaiting))
  {
    FreshOk(env, connectors);
    RunKeeps(env, Fresh(connectors), steps);
    var d := Run(env, Fresh(connectors), steps);
    assert i < |d.attempts| ==> Ordered(env, d.attempts[i]);
  }

  /** While the gate is closed, a charging session at the head of the request file is withheld
      exactly when its text does not quote the configuration's name. */
  lemma SessionWithheldIff(env: Env, d: Device)
    requires DeviceOk(env, d) && !d.exchanged && d.store.slots[REQUEST].lines != []
    requires ActionOf(env, d.store.slots[REQUEST].lines[0]) == Some(SESSION)
    ensures Pick(d).0 == None <==> !Occurs(Quoted(CONFIG), Head(d.store.slots[REQUEST].lines[0]))
    ensures Pick(d).0.Some? ==> Pick(d) == (Some(Head(d.store.slots[REQUEST].lines[0])), 1)
  {
    HeadIsOrdered(env, d.store, REQUEST);
    assert AllIdentified(env, d.store.slots[REQUEST].lines);
    SentAction(env, d.store.slots[REQUEST].lines[0]);
  }

  /** The payload of a charging session whose start date, as it came from CAN, is the name of the
      configuration message; front and back are its other members. */
  function Misleading(front: string, back: string): string {
    front + "\"startDateTime\":" + Quoted(CONFIG) + back
  }

  function SessionThenDispatch(uuid: string, payload: string, timestamp: string, now: int, ok: bool): seq<Step> {
    [DoAdvance(true), DoCreate(Session, uuid, payload, timestamp), DoDispatch(true, now, ok)]
  }

  /** Such a session is sent before the gate opens: the first dispatch after it is stored hands
      it to the publish call. */
  lemma MisleadingSessionIsSent(env: Env, connectors: nat, uuid: string, front: string, back: string,
                                timestamp: string, now: int, ok: bool)
    requires connectors <= MAX_CONNECTORS
    requires LegalRun(env, Fresh(connectors), SessionThenDispatch(uuid, Misleading(front, back), timestamp, now, ok))
    ensures var d := Run(env, Fresh(connectors),
                         SessionThenDispatch(uuid, Misleading(front, back), timestamp, now, ok));
            && !d.exchanged && |d.attempts| == 1 && !d.attempts[0].gateOpen
            && d.attempts[0].text == CallText(uuid, SESSION, Misleading(front, back))
            && env.parse(d.attempts[0].text) == Valid(Some(uuid), Some(SESSION))
  {
    var payload := Misleading(front, back);
    var steps := SessionThenDispatch(uuid, payload, timestamp, now, ok);
    FreshOk(env, connectors);
    var d1 := RunFirst(env, Fresh(connectors), steps);
    var d2 := RunFirst(env, d1, steps[1..]);
    assert steps[1..][1..] == steps[2..] && steps[2..][1..] == [];
    var d3 := RunFirst(env, d2, steps[2..]);
    SessionStored(env, d1, uuid, payload, timestamp);
    QuotesConfiguration(uuid, front, back);
    var text := CallText(uuid, SESSION, payload);
    assert Pick(d2) == (Some(text), 1);
    DispatchIs(env, d2, true, now, ok);
    var a := AttemptOf(d2, now, ok);
    RepeatCounts(env, d2.(lastCheck := now, attempts := d2.attempts + [a]), a.text, a.importance);
  }

  lemma SessionStored(env: Env, d: Device, uuid: string, payload: string, timestamp: string)
    requires Shaped(d.store) && d.store.slots[REQUEST] == Slot([], 0)
    requires Legal(env, d, DoCreate(Session, uuid, payload, timestamp))
    ensures var text := CallText(uuid, SESSION, payload);
            && Next(env, d, DoCreate(Session, uuid, payload, timestamp)) ==
               d.(store := Save(env, d.store, REQUEST, text, timestamp))
            && Save(env, d.store, REQUEST, text, timestamp).slots[REQUEST].lines == [Line(text, timestamp)]
            && Head(Line(text, timestamp)) == text && env.parse(text) == Valid(Some(uuid), Some(SESSION))
  {
    LineParts(CallText(uuid, SESSION, payload), timestamp);
  }

  lemma QuotesConfiguration(uuid: string, front: string, back: string)
    ensures Occurs(Quoted(CONFIG), CallText(uuid, SESSION, Misleading(front, back)))
  {
    var before := "[2," + Quoted(uuid) + "," + Quoted(SESSION) + "," + (front + "\"startDateTime\":");
    assert CallText(uuid, SESSION, Misleading(front, back)) == before + Quoted(CONFIG) + (back + "]");
    OccursInside(before, Quoted(CONFIG), back + "]");
  }

  // ---------------------------------------------------------------- the gate

  /** Only one step opens the gate: a valid response whose UUID is that of the configuration
      message of this boot, while that message is still stored. */
  lemma GateOpensOnlyOnBootResponse(env: Env, d: Device, step: Step) returns (f: nat, line: string)
    requires DeviceOk(env, d) && Legal(env, d, step)
    requires !d.exchanged && Next(env, d, step).exchanged
    ensures step.DoReceive? && step.inbound.Array? && Byte(|step.inbound.items|) == 3 && |step.inbound.items| >= 3
    ensures var items := step.inbound.items;
            && items[0] == Number(3) && items[1] == Str(d.bootUuid) && items[2].Object? && items[2].stamped
    ensures f < |d.store.slots| && line in d.store.slots[f].lines
    ensures Head(line) == d.bootEntry && ActionOf(env, line) == Some(CONFIG) && d.bootFlag == 0
  {
    if step.DoDispatch? {
      DispatchFrame(env, d, step.online, step.now, step.ok);
    }
    f, line := LookupFound(env, d.store, d.bootUuid);
    assert BootEntryIn(env, d, d.store.slots[f].lines);
  }

  /** The boot flag only moves 1, 2, 3, 0 (the main loop passes through 2 within one step),
      and an open gate stays open, until a restart. */
  lemma GateMovesForward(env: Env, d: Device, step: Step)
    requires DeviceOk(env, d) && Legal(env, d, step) && !step.DoReboot?
    ensures var d' := Next(env, d, step);
            && (d.exchanged ==> d'.exchanged)
            && (d'.bootFlag == d.bootFlag
                || (d.bootFlag in {1, 2} && d'.bootFlag == 3 && step.DoAdvance?)
                || (d.bootFlag == 3 && d'.bootFlag == 0 && step.DoCreate? && step.kind == Configuration
                    && d'.bootUuid == step.uuid))
  {
    if step.DoDispatch? {
      DispatchFrame(env, d, step.online, step.now, step.ok);
    } else if step.DoReceive? && step.inbound.Array? && Byte(|step.inbound.items|) == 3 {
      ResultEffect(env, d, step.inbound.items);
    }
  }

  ghost predicate NoReboot(steps: seq<Step>) {
    forall i :: 0 <= i < |steps| ==> !steps[i].DoReboot?
  }

  ghost predicate PeriodicEntry(env: Env, line: string) {
    ActionOf(env, line) == Some(CHARGER_PERIODIC) || ActionOf(env, line) == Some(PCM_PERIODIC)
  }

  /** The part of the request file's history that came after a point. */
  ghost predicate OnlyAppended(env: Env, before: Device, after: Device)
  {
    && Shaped(before.store) && Shaped(after.store)
    && before.store.trails[REQUEST].appended <= after.store.trails[REQUEST].appended
    && forall i :: |before.store.trails[REQUEST].appended| <= i < |after.store.trails[REQUEST].appended| ==>
                     !PeriodicEntry(env, after.store.trails[REQUEST].appended[i])
  }

  lemma DropAppendsNothing(env: Env, st: Store, target: string)
    requires Shaped(st)
    ensures var st' := DropText(env, st, target);
            Shaped(st') && st'.trails[REQUEST].appended == st.trails[REQUEST].appended
  {
    DropLines(env, st, target, REQUEST, 0);
    assert DroppedIn(env, target, st, DropText(env, st, target), REQUEST);
  }

  lemma DispatchAppendsNothing(env: Env, d: Device, online: bool, now: int, ok: bool)
    requires Shaped(d.store) && 0 <= d.retry <= 2
    ensures var st' := Dispatch(env, d, online, now, ok).store;
            Shaped(st') && st'.trails[REQUEST].appended == d.store.trails[REQUEST].appended
  {
    DispatchIs(env, d, online, now, ok);
    if Attempts(d, online, now) {
      var a := AttemptOf(d, now, ok);
      var d1 := d.(lastCheck := now, attempts := d.attempts + [a]);
      var critical, dropped := RepeatStore(env, d1, a.text, a.importance);
      DropAppendsNothing(env, d.store.(critical := critical), a.text);
    }
  }

  lemma {:induction false} FaultAnswerAppendsNothing(env: Env, st: Store, uuid: string, f: nat)
    requires Shaped(st)
    ensures var st' := AnswerFaultFrom(env, st, uuid, f);
            Shaped(st') && st'.trails[REQUEST].appended == st.trails[REQUEST].appended
    decreases Visible(st) - f
  {
    if f < Visible(st) {
      if st.slots[f].count == 0 {
        FaultAnswerAppendsNothing(env, st, uuid, f + 1);
      } else {
        FaultAnswerAppendsNothing(env, Rewrite(env, st, f, ByUuid(uuid), Answered), uuid, f + 1);
      }
    }
  }

  lemma ReceiveAppendsNothing(env: Env, d: Device, inbound: Inbound)
    requires Shaped(d.store)
    ensures var st' := Validate(env, d, inbound).0.store;
            Shaped(st') && st'.trails[REQUEST].appended == d.store.trails[REQUEST].appended
  {
    if inbound.Array? && Byte(|inbound.items|) == 3 {
      ResultEffect(env, d, inbound.items);
      if inbound.items[1].Str? {
        FaultAnswerAppendsNothing(env, d.store, inbound.items[1].text, ONLINE);
      }
    }
  }

  lemma SaveAppends(env: Env, st: Store, f: nat, message: string, timestamp: string)
    requires Shaped(st) && f < |st.slots|
    ensures var st' := Save(env, st, f, message, timestamp);
            && Shaped(st') && |st'.slots| == |st.slots|
            && st'.trails[REQUEST].appended ==
               st.trails[REQUEST].appended + (if f == REQUEST then [Line(message, timestamp)] else [])
  {
  }

  lemma {:induction false} RecountAppendsNothing(st: Store, f: nat)
    requires Shaped(st)
    ensures Shaped(RecountFrom(st, f)) && RecountFrom(st, f).trails == st.trails
    decreases Visible(st) - f
  {
    if f < Visible(st) {
      RecountAppendsNothing(Recount(st, f), f + 1);
    }
  }

  lemma CreateAppends(env: Env, d: Device, kind: Kind, uuid: string, payload: string, timestamp: string)
    requires DeviceOk(env, d) && Legal(env, d, DoCreate(kind, uuid, payload, timestamp)) && !d.exchanged
    ensures OnlyAppended(env, d, Create(env, d, kind, uuid, payload, timestamp))
  {
    if MayCreate(d, kind) && Route(kind).Some? {
      var f, text := Route(kind).value, CallText(uuid, ActionName(kind), payload);
      NewLine(env, kind, uuid, payload, timestamp, f);
      SaveAppends(env, d.store, f, text, timestamp);
      RecountAppendsNothing(Save(env, d.store, f, text, timestamp).(named := true), CONNECTORS);
    }
  }

  lemma StepAppends(env: Env, d: Device, step: Step)
    requires DeviceOk(env, d) && Legal(env, d, step) && !step.DoReboot? && !d.exchanged
    ensures OnlyAppended(env, d, Next(env, d, step))
  {
    match step
    case DoAdvance(_) =>
    case DoDispatch(online, now, ok) => DispatchAppendsNothing(env, d, online, now, ok);
    case DoReceive(inbound) => ReceiveAppendsNothing(env, d, inbound);
    case DoCreate(kind, uuid, payload, timestamp) => CreateAppends(env, d, kind, uuid, payload, timestamp);
  }

  lemma AppendedTransitive(env: Env, a: Device, b: Device, c: Device)
    requires OnlyAppended(env, a, b) && OnlyAppended(env, b, c)
    ensures OnlyAppended(env, a, c)
  {
  }

  /** As long as the gate is closed, no periodic message is created, in any run. */
  lemma {:induction false} NoPeriodicWhileClosed(env: Env, d: Device, steps: seq<Step>)
    requires DeviceOk(env, d) && LegalRun(env, d, steps) && NoReboot(steps)
    requires !Run(env, d, steps).exchanged
    ensures !d.exchanged && OnlyAppended(env, d, Run(env, d, steps))
    decreases |steps|
  {
    if steps != [] {
      var d1 := Next(env, d, steps[0]);
      StepKeeps(env, d, steps[0]);
      assert NoReboot(steps[1..]);
      NoPeriodicWhileClosed(env, d1, steps[1..]);
      GateMovesForward(env, d, steps[0]);
      StepAppends(env, d, steps[0]);
      AppendedTransitive(env, d, d1, Run(env, d, steps));
    }
  }

  // ---------------------------------------------------------------- responses

  function Response(uuid: string, stamped: bool, addressed: bool): Inbound {
    Array([Number(3), Str(uuid), Object(stamped, addressed)])
  }

  /** The store after an accepted response to a stored entry. */
  function AnsweredStore(env: Env, st: Store, f: nat, uuid: string): Store
    requires Shaped(st)
  {
    if f == REQUEST then AnswerRequest(env, st, uuid) else AnswerFault(env, st, uuid)
  }

  lemma AnsweredStoreIs(env: Env, st: Store, f: nat, line: string, uuid: string)
    requires EntriesOk(env, st) && f < Visible(st) && line in st.slots[f].lines && UuidOf(env, line) == Some(uuid)
    ensures RemovedExactly(env, st, AnsweredStore(env, st, f, uuid), f, line, Answered)
    ensures CountedTo(st, AnsweredStore(env, st, f, uuid), if f == REQUEST then REQUEST else ONLINE, f)
  {
    assert SlotOk(env, f, st.slots[f], st.trails[f]);
    if f == REQUEST {
      AnswerRequestExact(env, st, line, uuid);
      AnswerRequestCounts(env, st, uuid);
    } else {
      AnswerFaultExact(env, st, f, line, uuid);
      AnswerFaultCounts(env, st, f, line, uuid);
    }
  }

  /** What a response to an entry does that the lookup sees. */
  lemma SeenResponse(env: Env, d: Device, f: nat, line: string, uuid: string, stamped: bool, addressed: bool)
    requires DeviceOk(env, d) && f < Visible(d.store) && line in d.store.slots[f].lines
    requires UuidOf(env, line) == Some(uuid) && |uuid| <= 36
    ensures ActionOf(env, line).Some?
    ensures var (d', code) := Validate(env, d, Response(uuid, stamped, addressed));
            var action := ActionOf(env, line).value;
            && code == PayloadCode(action, stamped)
            && d' == if stamped || !Critical(action)
                     then d.(store := AnsweredStore(env, d.store, f, uuid),
                             exchanged := d.exchanged || (action == CONFIG && stamped && d.bootUuid == uuid))
                     else d
  {
    assert AllFit(env, f, d.store.slots[f].lines) && Fits(env, f, line);
    LookupIs(env, d.store, uuid, f, line);
  }

  /** A response to a stored entry takes out exactly that entry, in whichever file it is, unless
      its payload is invalid and the action critical, or the entry waits in a connector file that
      has no name yet: then nothing changes at all.  The file that lost the entry is counted
      anew, and of the other files only the fault files tried before it; and nothing else of the
      device changes, but for the gate. */
  lemma ResponseOutcome(env: Env, d: Device, f: nat, line: string, uuid: string, stamped: bool, addressed: bool)
    requires DeviceOk(env, d) && f < |d.store.slots| && line in d.store.slots[f].lines
    requires UuidOf(env, line) == Some(uuid) && |uuid| <= 36
    ensures ActionOf(env, line).Some?
    ensures var (d', code) := Validate(env, d, Response(uuid, stamped, addressed));
            var action, seen := ActionOf(env, line).value, f < CONNECTORS || d.store.named;
            && code == (if seen then PayloadCode(action, stamped) else ValidMsg)
            && if seen && (stamped || !Critical(action))
               then
                 && RemovedExactly(env, d.store, d'.store, f, line, Answered)
                 && CountedTo(d.store, d'.store, if f == REQUEST then REQUEST else ONLINE, f)
                 && d' == d.(store := d'.store,
                             exchanged := d.exchanged || (action == CONFIG && stamped && d.bootUuid == uuid))
               else d' == d
  {
    if f < Visible(d.store) {
      SeenResponse(env, d, f, line, uuid, stamped, addressed);
      AnsweredStoreIs(env, d.store, f, line, uuid);
    } else {
      assert AllFit(env, f, d.store.slots[f].lines) && Fits(env, f, line);
      HiddenIsNotFound(env, d.store, uuid, f, line);
    }
  }

  /** A late response to a connector fault between a restart and the first configuration message
      is acknowledged as valid and ignored: the entry stays and will be sent again. */
  lemma LateResponseIgnored(env: Env, d: Device, f: nat, line: string, uuid: string, stamped: bool, addressed: bool)
    requires DeviceOk(env, d) && CONNECTORS <= f < |d.store.slots| && line in d.store.slots[f].lines
    requires UuidOf(env, line) == Some(uuid) && |uuid| <= 36
    ensures Shaped(Reboot(d).store) && |Reboot(d).store.slots| == |d.store.slots|
    ensures Validate(env, Reboot(d), Response(uuid, stamped, addressed)) == (Reboot(d), ValidMsg)
    ensures Reboot(d).store.slots[f].lines == d.store.slots[f].lines
  {
    RebootKeeps(env, d);
    MarksAlone(env, d.store, 0, false);
    RecountKeeps(env, d.store.(critical := 0, named := false), REQUEST);
    ResponseOutcome(env, Reboot(d), f, line, uuid, stamped, addressed);
  }

  /** A device with one connector stores a configuration message and a fault of the connector
      and restarts. */
  function FaultAndRestart(u1: string, u2: string, payload: string, timestamp: string): seq<Step> {
    [DoAdvance(true), DoCreate(Configuration, u1, payload, timestamp), DoCreate(Fault(0, 1), u2, payload, timestamp),
     DoReboot]
  }

  /** That run reaches a store where lookup and scan differ: the scan finds the fault, the
      lookup does not, and its response is ignored. */
  lemma LateResponseReached(env: Env, u1: string, u2: string, payload: string, timestamp: string)
    requires LegalRun(env, Fresh(1), FaultAndRestart(u1, u2, payload, timestamp)) && |u2| <= 36
    ensures var d := Run(env, Fresh(1), FaultAndRestart(u1, u2, payload, timestamp));
            && Shaped(d.store) && |d.store.slots| == 4
            && d.store.slots[CONNECTORS].lines == [Line(CallText(u2, FAULT, payload), timestamp)]
            && Lookup(env, d.store, u2) == None && Scan(env, d.store, u2) == Some(FAULT)
            && Validate(env, d, Response(u2, true, true)) == (d, ValidMsg)
  {
    var steps := FaultAndRestart(u1, u2, payload, timestamp);
    FreshOk(env, 1);
    var d1 := RunFirst(env, Fresh(1), steps);
    var d2 := RunFirst(env, d1, steps[1..]);
    assert steps[1..][1..] == steps[2..] && steps[2..][1..] == steps[3..] && steps[3..] == [DoReboot];
    var d3 := RunFirst(env, d2, steps[2..]);
    var d4 := RunFirst(env, d3, steps[3..]);
    ConfigurationStored(env, d1, u1, payload, timestamp);
    var line := Line(CallText(u2, FAULT, payload), timestamp);
    NewLine(env, Fault(0, 1), u2, payload, timestamp, CONNECTORS);
    SaveSlot(env, d2.store, CONNECTORS, CallText(u2, FAULT, payload), timestamp);
    assert d3.store.slots[CONNECTORS].lines == [line];
    LateResponseIgnored(env, d3, CONNECTORS, line, u2, true, true);
    HiddenIsScanned(env, d3, CONNECTORS, line, u2);
  }

  /** After a restart the lookup misses a connector entry that the scan finds. */
  lemma HiddenIsScanned(env: Env, d: Device, f: nat, line: string, uuid: string)
    requires DeviceOk(env, d) && CONNECTORS <= f < |d.store.slots| && line in d.store.slots[f].lines
    requires UuidOf(env, line) == Some(uuid)
    ensures Lookup(env, Reboot(d).store, uuid) == None && Scan(env, Reboot(d).store, uuid) == ActionOf(env, line)
  {
    RebootKeeps(env, d);
    MarksAlone(env, d.store, 0, false);
    RecountKeeps(env, d.store.(critical := 0, named := false), REQUEST);
    var st := Reboot(d).store;
    HiddenIsNotFound(env, st, uuid, f, line);
    ScanFinds(env, st, uuid, REQUEST, |st.slots|, f, line);
    var g, x := ScanHits(env, st, uuid, REQUEST, |st.slots|);
    UuidSingles(env, st, f, line, uuid);
    assert Hits(env, ByUuid(uuid), x);
  }

  /** The first configuration message leaves the connector files empty and counted. */
  lemma ConfigurationStored(env: Env, d: Device, uuid: string, payload: string, timestamp: string)
    requires Shaped(d.store) && |d.store.slots| == 4 && d.store.slots[CONNECTORS] == Slot([], 0)
    requires d.bootFlag == 3
    ensures var st := Create(env, d, Configuration, uuid, payload, timestamp).store;
            Shaped(st) && |st.slots| == 4 && st.slots[CONNECTORS] == Slot([], 0)
  {
    var st := Save(env, d.store, REQUEST, CallText(uuid, CONFIG, payload), timestamp).(named := true);
    assert RecountFrom(st, CONNECTORS) == RecountFrom(Recount(st, CONNECTORS), CONNECTORS + 1);
  }

  /** A response to this boot's stored configuration message opens the gate exactly when its
      timestamp is valid. */
  lemma BootResponseOpensIff(env: Env, d: Device, f: nat, line: string, stamped: bool, addressed: bool)
    requires DeviceOk(env, d) && !d.exchanged && f < |d.store.slots| && line in d.store.slots[f].lines
    requires d.bootUuid != "" && |d.bootUuid| <= 36 && UuidOf(env, line) == Some(d.bootUuid)
    ensures Validate(env, d, Response(d.bootUuid, stamped, addressed)).0.exchanged <==> stamped
  {
    LookupIs(env, d.store, d.bootUuid, f, line);
    assert BootEntryIn(env, d, d.store.slots[f].lines);
    assert MessageOf(line) == Some(Head(line)) && Head(line) == d.bootEntry;
    assert ActionOf(env, line) == Some(CONFIG);
  }

  ghost predicate NoEntry(env: Env, st: Store, uuid: string) {
    forall f, x :: 0 <= f < |st.slots| && x in st.slots[f].lines ==> UuidOf(env, x) != Some(uuid)
  }

  /** A response that matches no stored entry changes nothing, whatever it holds. */
  lemma UnknownResponse(env: Env, d: Device, items: seq<Item>)
    requires DeviceOk(env, d) && |items| >= 3 && items[1].Str? && NoEntry(env, d.store, items[1].text)
    ensures Validate(env, d, Array(items)).0 == d
  {
    if Byte(|items|) == 3 && Lookup(env, d.store, items[1].text).Some? {
      var g, x := LookupFound(env, d.store, items[1].text);
      assert false;
    }
  }

  /** Once a stored entry's response was accepted, no entry has its UUID. */
  lemma AnsweredIsGone(env: Env, d: Device, f: nat, line: string, uuid: string, after: Store)
    requires DeviceOk(env, d) && f < |d.store.slots| && line in d.store.slots[f].lines
    requires UuidOf(env, line) == Some(uuid) && RemovedExactly(env, d.store, after, f, line, Answered)
    ensures NoEntry(env, after, uuid)
  {
    UuidSingles(env, d.store, f, line, uuid);
    KeptMembers(env, ByLine(line), d.store.slots[f].lines);
    forall g, x | 0 <= g < |after.slots| && x in after.slots[g].lines ensures UuidOf(env, x) != Some(uuid) {
      assert RemovedIn(env, d.store, after, f, line, Answered, g);
      assert x in d.store.slots[g].lines;
      assert Hits(env, ByUuid(uuid), x) <==> g == f && x == line;
    }
  }

  /** Receiving any message twice is receiving it once. */
  lemma ReceiveIsIdempotent(env: Env, d: Device, inbound: Inbound)
    requires DeviceOk(env, d)
    ensures Shaped(Validate(env, d, inbound).0.store)
    ensures Validate(env, Validate(env, d, inbound).0, inbound).0 == Validate(env, d, inbound).0
  {
    var d' := Validate(env, d, inbound).0;
    ReceiveKeeps(env, d, inbound);
    if d' != d {
      var items := inbound.items;
      ResultEffect(env, d, items);
      var uuid := items[1].text;
      var f, line := LookupFound(env, d.store, uuid);
      assert AllFit(env, f, d.store.slots[f].lines) && Fits(env, f, line);
      if f == REQUEST {
        AnswerRequestExact(env, d.store, line, uuid);
      } else {
        AnswerFaultExact(env, d.store, f, line, uuid);
      }
      AnsweredIsGone(env, d, f, line, uuid, d'.store);
      UnknownResponse(env, d', items);
    }
  }
}
