/** Whole runs of the device: retries, conservation, the boot gate, responses. */
module DeviceRuns {
  import opened Wrappers
  import opened Text
  import opened Entries
  import opened StoreModel
  import opened StoreFacts
  import opened DeviceModel
  import opened DeviceFacts

  // ---------------------------------------------------------------- the publish log

  /** The texts published successfully, in order. */
  ghost function Sent(attempts: seq<Attempt>): seq<string> {
    if attempts == [] then []
    else
      var front, last := Sent(attempts[..|attempts| - 1]), attempts[|attempts| - 1];
      if last.ok then front + [last.text] else front
  }

  /** The last n are all this text. */
  ghost predicate EndsWith(texts: seq<string>, n: nat, text: string) {
    n <= |texts| && forall i :: |texts| - n <= i < |texts| ==> texts[i] == text
  }

  /** If attempt k repeats the last text sent before it, it comes at least 20000 ms after
      the attempt before it. */
  ghost predicate Spaced(attempts: seq<Attempt>, k: nat)
    requires 0 < k < |attempts|
  {
    var sent := Sent(attempts[..k]);
    sent != [] && sent[|sent| - 1] == attempts[k].text ==> attempts[k].time - attempts[k - 1].time >= 20000
  }

  ghost predicate Throttled(attempts: seq<Attempt>) {
    forall k {:trigger Spaced(attempts, k)} :: 0 < k < |attempts| ==> Spaced(attempts, k)
  }

  /** A drop follows four successful publishes of its text in a row. */
  ghost predicate DropEarned(attempts: seq<Attempt>, drop: Drop) {
    drop.after <= |attempts| && EndsWith(Sent(attempts[..drop.after]), 4, drop.text)
  }

  ghost predicate LogOk(d: Device) {
    && 0 <= d.retry <= 2
    && 0 <= d.lastCheck
    && (d.attempts != [] ==> d.lastCheck == d.attempts[|d.attempts| - 1].time)
    && (match d.lastSent
        case None => Sent(d.attempts) == [] && d.retry == 0
        case Some(text) => EndsWith(Sent(d.attempts), d.retry + 1, text))
    && Throttled(d.attempts)
    && (forall i :: 0 <= i < |d.drops| ==> DropEarned(d.attempts, d.drops[i]))
  }

  lemma ThrottledSnoc(attempts: seq<Attempt>, a: Attempt)
    requires Throttled(attempts)
    requires attempts != [] && Sent(attempts) != [] && Sent(attempts)[|Sent(attempts)| - 1] == a.text
             ==> a.time - attempts[|attempts| - 1].time >= 20000
    ensures Throttled(attempts + [a])
  {
    var all := attempts + [a];
    forall k | 0 < k < |all| ensures Spaced(all, k) {
      if k < |attempts| {
        assert all[..k] == attempts[..k] && Spaced(attempts, k);
        assert all[k] == attempts[k] && all[k - 1] == attempts[k - 1];
      } else {
        assert all[..k] == attempts;
      }
    }
  }

  lemma DropEarnedSnoc(attempts: seq<Attempt>, a: Attempt, drop: Drop)
    requires DropEarned(attempts, drop)
    ensures DropEarned(attempts + [a], drop)
  {
    assert (attempts + [a])[..drop.after] == attempts[..drop.after];
  }

  lemma SentSnoc(attempts: seq<Attempt>, a: Attempt)
    ensures Sent(attempts + [a]) == if a.ok then Sent(attempts) + [a.text] else Sent(attempts)
  {
    assert (attempts + [a])[..|attempts|] == attempts;
  }

  /** What a successful publish does to the counter and to the drops. */
  lemma RepeatCounts(env: Env, d: Device, message: string, importance: int)
    requires Shaped(d.store) && 0 <= d.retry <= 2
    ensures var d', again := CountRepeat(env, d, message, importance), d.lastSent == Some(message) && importance == 0;
            && d'.retry == (if again then (if d.retry == 2 then 0 else d.retry + 1)
                            else if d.lastSent == None || d.lastSent == Some(message) then d.retry
                            else 0)
            && d'.drops == (if again && d.retry == 2 then d.drops + [Drop(message, |d.attempts|)] else d.drops)
            && d'.attempts == d.attempts && d'.lastCheck == d.lastCheck && d'.lastSent == d.lastSent
            && d'.bootFlag == d.bootFlag && d'.bootUuid == d.bootUuid && d'.bootEntry == d.bootEntry
            && d'.exchanged == d.exchanged
  {
  }

  lemma EndsWithSnoc(texts: seq<string>, n: nat, text: string)
    requires EndsWith(texts, n, text)
    ensures forall m: nat :: m <= n + 1 ==> EndsWith(texts + [text], m, text)
  {
  }

  lemma PublishKeepsLog(env: Env, d: Device, a: Attempt)
    requires Shaped(d.store) && LogOk(d) && a.ok && a.time >= 0 && Throttled(d.attempts + [a])
    ensures var d1 := d.(lastCheck := a.time, attempts := d.attempts + [a]);
            LogOk(CountRepeat(env, d1, a.text, a.importance).(lastSent := Some(a.text)))
  {
    var all := d.attempts + [a];
    var d1 := d.(lastCheck := a.time, attempts := all);
    RepeatCounts(env, d1, a.text, a.importance);
    SentSnoc(d.attempts, a);
    if d.lastSent == Some(a.text) {
      EndsWithSnoc(Sent(d.attempts), d.retry + 1, a.text);
    } else {
      EndsWithSnoc(Sent(d.attempts), 0, a.text);
    }
    var d' := CountRepeat(env, d1, a.text, a.importance);
    forall i | 0 <= i < |d'.drops| ensures DropEarned(all, d'.drops[i]) {
      if i < |d.drops| {
        DropEarnedSnoc(d.attempts, a, d.drops[i]);
      } else {
        assert all[..|all|] == all;
      }
    }
  }

  lemma FailureKeepsLog(d: Device, a: Attempt)
    requires LogOk(d) && !a.ok && a.time >= 0 && Throttled(d.attempts + [a])
    ensures LogOk(d.(lastCheck := a.time, attempts := d.attempts + [a]))
  {
    SentSnoc(d.attempts, a);
    forall i | 0 <= i < |d.drops| ensures DropEarned(d.attempts + [a], d.drops[i]) {
      DropEarnedSnoc(d.attempts, a, d.drops[i]);
    }
  }

  /** A dispatch does nothing, or makes one attempt. */
  ghost predicate Attempts(d: Device, online: bool, now: int)
    requires Shaped(d.store)
  {
    online && Pick(d).0.Some? && !(d.lastSent == Pick(d).0 && (now - d.lastCheck) % TICKS < RETRY_INTERVAL)
  }

  lemma DispatchIs(env: Env, d: Device, online: bool, now: int, ok: bool)
    requires Shaped(d.store)
    ensures var d' := Dispatch(env, d, online, now, ok);
            if !Attempts(d, online, now) then d' == d
            else
              var a := AttemptOf(d, now, ok);
              var d1 := d.(lastCheck := now, attempts := d.attempts + [a]);
              && a.text == Pick(d).0.value && a.importance == Pick(d).1 && a.time == now && a.ok == ok
              && d' == if ok then CountRepeat(env, d1, a.text, a.importance).(lastSent := Some(a.text)) else d1
  {
  }

  lemma AttemptSpaced(d: Device, online: bool, now: int, ok: bool)
    requires Shaped(d.store) && LogOk(d) && d.lastCheck <= now < TICKS && Attempts(d, online, now)
    ensures Throttled(d.attempts + [AttemptOf(d, now, ok)])
  {
    ThrottledSnoc(d.attempts, AttemptOf(d, now, ok));
  }

  /** Every dispatch keeps the retry counter below 3 and the log in order. */
  lemma DispatchKeepsLog(env: Env, d: Device, online: bool, now: int, ok: bool)
    requires Shaped(d.store) && LogOk(d) && d.lastCheck <= now < TICKS
    ensures LogOk(Dispatch(env, d, online, now, ok))
  {
    DispatchIs(env, d, online, now, ok);
    if Attempts(d, online, now) {
      AttemptSpaced(d, online, now, ok);
      if ok {
        PublishKeepsLog(env, d, AttemptOf(d, now, ok));
      } else {
        FailureKeepsLog(d, AttemptOf(d, now, ok));
      }
    }
  }

  // ---------------------------------------------------------------- dispatch and the store

  ghost predicate StoreSide(env: Env, d: Device) {
    EntriesOk(env, d.store) && 0 <= d.store.critical <= 2
  }

  lemma {:induction false} FaultHeadFound(st: Store, f: nat) returns (g: nat)
    requires FaultHeadFrom(st, f).Some?
    ensures f <= g < Visible(st) && st.slots[g].lines != []
    ensures FaultHeadFrom(st, f) == Some(Head(st.slots[g].lines[0]))
    decreases Visible(st) - f
  {
    if st.slots[f].lines != [] {
      g := f;
    } else {
      g := FaultHeadFound(st, f + 1);
    }
  }

  /** What is dispatched is the head of a file; with importance 0 it is no critical entry. */
  lemma PickedHead(env: Env, d: Device) returns (f: nat)
    requires EntriesOk(env, d.store) && Pick(d).0.Some?
    ensures f < Visible(d.store) && d.store.slots[f].lines != []
    ensures Pick(d).0 == Some(Head(d.store.slots[f].lines[0]))
    ensures Pick(d).1 == 0 ==>
              var action := ActionOf(env, d.store.slots[f].lines[0]); action.Some? && !Critical(action.value)
  {
    if d.exchanged && FaultHeadFrom(d.store, ONLINE).Some? {
      f := FaultHeadFound(d.store, ONLINE);
    } else {
      f := REQUEST;
      assert AllFit(env, f, d.store.slots[f].lines);
      assert Fits(env, f, d.store.slots[f].lines[0]);
    }
  }

  /** A stored entry's message parses. */
  lemma HeadParses(env: Env, line: string)
    requires Identified(env, line)
    ensures env.parse(Head(line)).Valid?
  {
  }

  /** A critical entry that parses is never deleted by the retry code. */
  lemma CriticalRepeatIsHarmless(env: Env, st: Store, message: string)
    requires Shaped(st) && env.parse(message).Valid?
    ensures Extract(env, st, message).0 == st.(critical := if st.critical >= 3 then 0 else st.critical)
  {
  }

  lemma RepeatKeepsStore(env: Env, d: Device, message: string, importance: int, f: nat)
    requires StoreSide(env, d) && f < Visible(d.store) && d.store.slots[f].lines != []
    requires message == Head(d.store.slots[f].lines[0]) && 0 <= d.retry <= 2
    requires importance == 0 ==>
               var action := ActionOf(env, d.store.slots[f].lines[0]); action.Some? && !Critical(action.value)
    ensures StoreSide(env, CountRepeat(env, d, message, importance))
  {
    var line := d.store.slots[f].lines[0];
    assert AllIdentified(env, d.store.slots[f].lines) && Identified(env, line);
    HeadParses(env, line);
    if importance == 0 {
      DropKeepsEntries(env, d.store, f, line);
    } else {
      var critical := d.store.critical + 1;
      MarksAlone(env, d.store, critical, d.store.named);
      MarksAlone(env, d.store, 0, d.store.named);
      CriticalRepeatIsHarmless(env, d.store.(critical := critical), message);
    }
  }

  lemma DispatchKeepsStore(env: Env, d: Device, online: bool, now: int, ok: bool)
    requires StoreSide(env, d) && LogOk(d)
    ensures StoreSide(env, Dispatch(env, d, online, now, ok))
  {
    if Pick(d).0.Some? {
      var f := PickedHead(env, d);
      var a := AttemptOf(d, now, ok);
      RepeatKeepsStore(env, d.(lastCheck := now, attempts := d.attempts + [a]), Pick(d).0.value, Pick(d).1, f);
    }
  }

  // ---------------------------------------------------------------- the gate

  /** What was sent, by its own action: before the gate opens no fault, and a charging session
      only if its text quotes the configuration's name; after it, a fault exactly when one waits. */
  ghost predicate Ordered(env: Env, a: Attempt) {
    && env.parse(a.text).Valid? && env.parse(a.text).action.Some?
    && var action := env.parse(a.text).action.value;
    && (!a.gateOpen ==> action != FAULT)
    && (!a.gateOpen && action == SESSION ==> Occurs(Quoted(CONFIG), a.text))
    && (a.gateOpen ==> (action == FAULT <==> a.faultWaiting))
  }

  lemma {:induction false} FaultHeadIff(st: Store, f: nat)
    ensures FaultHeadFrom(st, f).Some? <==> exists g :: f <= g < Visible(st) && st.slots[g].lines != []
    decreases Visible(st) - f
  {
    if f < Visible(st) {
      FaultHeadIff(st, f + 1);
    }
  }

  /** The action of a stored entry is that of the text that is sent for it. */
  lemma SentAction(env: Env, line: string)
    requires Identified(env, line)
    ensures env.parse(Head(line)).Valid? && env.parse(Head(line)).action == ActionOf(env, line)
  {
  }

  lemma AttemptOrdered(env: Env, d: Device, now: int, ok: bool)
    requires EntriesOk(env, d.store) && (d.exchanged ==> d.store.named) && Pick(d).0.Some?
    ensures Ordered(env, AttemptOf(d, now, ok))
  {
    FaultHeadIff(d.store, ONLINE);
    if d.exchanged && FaultHeadFrom(d.store, ONLINE).Some? {
      var f := FaultHeadFound(d.store, ONLINE);
      HeadIsOrdered(env, d.store, f);
    } else {
      HeadIsOrdered(env, d.store, REQUEST);
    }
  }

  /** The head of a file is a fault exactly outside the request file, and shows its action. */
  lemma HeadIsOrdered(env: Env, st: Store, f: nat)
    requires EntriesOk(env, st) && f < |st.slots| && st.slots[f].lines != []
    ensures var line := st.slots[f].lines[0];
            && env.parse(Head(line)).Valid? && env.parse(Head(line)).action.Some?
            && var action := env.parse(Head(line)).action.value;
            && (f == REQUEST <==> action != FAULT) && Occurs(Quoted(action), Head(line))
  {
    assert AllFit(env, f, st.slots[f].lines) && Fits(env, f, st.slots[f].lines[0]);
    assert AllIdentified(env, st.slots[f].lines) && Identified(env, st.slots[f].lines[0]);
    SentAction(env, st.slots[f].lines[0]);
  }

  ghost predicate BootEntryIn(env: Env, d: Device, lines: seq<string>) {
    forall x :: x in lines && UuidOf(env, x) == Some(d.bootUuid) ==> Head(x) == d.bootEntry
  }

  ghost predicate GateOk(env: Env, d: Device) {
    && d.bootFlag in {0, 1, 2, 3}
    && (d.bootFlag == 0 <==> d.bootUuid != "")
    && (d.exchanged ==> d.bootFlag == 0)
    && (d.bootFlag == 0 <==> d.store.named)
    && (d.bootUuid != "" ==> env.parse(d.bootEntry) == Valid(Some(d.bootUuid), Some(CONFIG)))
    && (d.bootUuid != "" ==>
          forall f {:trigger BootEntryIn(env, d, d.store.slots[f].lines)} ::
            0 <= f < |d.store.slots| ==> BootEntryIn(env, d, d.store.slots[f].lines))
    && (forall i :: 0 <= i < |d.attempts| ==> Ordered(env, d.attempts[i]))
  }

  ghost predicate DeviceOk(env: Env, d: Device) {
    StoreSide(env, d) && LogOk(d) && GateOk(env, d)
  }

  /** Steps that only lose lines keep the gate's account of the boot entry. */
  lemma ShrinkKeepsBootEntry(env: Env, d: Device, d': Device)
    requires GateOk(env, d) && Shrinks(d.store, d'.store)
    requires d'.bootUuid == d.bootUuid && d'.bootEntry == d.bootEntry && d'.bootFlag == d.bootFlag
    requires d'.store.named == d.store.named
    requires d'.exchanged ==> d.bootFlag == 0
    requires forall i :: 0 <= i < |d'.attempts| ==> Ordered(env, d'.attempts[i])
    ensures GateOk(env, d')
  {
    if d.bootUuid != "" {
      forall f | 0 <= f < |d'.store.slots| ensures BootEntryIn(env, d', d'.store.slots[f].lines) {
        assert Part(d'.store.slots[f].lines, d.store.slots[f].lines);
        assert BootEntryIn(env, d, d.store.slots[f].lines);
        PartMembers(d'.store.slots[f].lines, d.store.slots[f].lines);
      }
    }
  }

  lemma DispatchFrame(env: Env, d: Device, online: bool, now: int, ok: bool)
    requires Shaped(d.store) && 0 <= d.retry <= 2
    ensures var d' := Dispatch(env, d, online, now, ok);
            && d'.bootFlag == d.bootFlag && d'.bootUuid == d.bootUuid && d'.bootEntry == d.bootEntry
            && d'.exchanged == d.exchanged && d'.store.named == d.store.named
            && (d'.attempts == d.attempts
                || (Pick(d).0.Some? && d'.attempts == d.attempts + [AttemptOf(d, now, ok)]))
  {
    if Pick(d).0.Some? {
      var a := AttemptOf(d, now, ok);
      var d1 := d.(lastCheck := now, attempts := d.attempts + [a]);
      RepeatCounts(env, d1, a.text, a.importance);
      var critical, dropped := RepeatStore(env, d1, a.text, a.importance);
      DropBehind(env, d.store.(critical := critical), a.text, REQUEST, 0);
    }
  }

  /** What a repeat does to the store: it sets the critical counter, and may drop the text. */
  lemma RepeatStore(env: Env, d: Device, message: string, importance: int) returns (critical: int, dropped: bool)
    requires Shaped(d.store) && 0 <= d.retry <= 2
    ensures CountRepeat(env, d, message, importance).store ==
            if dropped then DropText(env, d.store.(critical := critical), message)
            else d.store.(critical := critical)
  {
    critical, dropped := d.store.critical, false;
    if d.lastSent == Some(message) {
      if importance == 0 {
        dropped := d.retry == 2;
      } else {
        critical := Byte(critical + 1);
        if critical >= 3 {
          critical := 0;
          dropped := env.parse(message).Invalid?;
        }
      }
    }
  }

  lemma RepeatShrinks(env: Env, d: Device, message: string, importance: int)
    requires StoreOk(env, d.store) && 0 <= d.retry <= 2
    ensures Shrinks(d.store, CountRepeat(env, d, message, importance).store)
  {
    var critical, dropped := RepeatStore(env, d, message, importance);
    var st := d.store.(critical := critical);
    CriticalIsNoLine(env, d.store, critical);
    DropKeeps(env, st, message, REQUEST, 0);
    if dropped {
      ShrinksTransitive(d.store, st, DropText(env, st, message));
    }
  }

  lemma CriticalIsNoLine(env: Env, st: Store, c: int)
    requires StoreOk(env, st)
    ensures StoreOk(env, st.(critical := c)) && Shrinks(st, st.(critical := c))
  {
    ShrinksItself(st);
    forall f | 0 <= f < |st.slots| ensures SlotOk(env, f, st.slots[f], st.trails[f]) {
    }
  }

  lemma DispatchShrinks(env: Env, d: Device, online: bool, now: int, ok: bool)
    requires StoreOk(env, d.store) && 0 <= d.retry <= 2
    ensures Shrinks(d.store, Dispatch(env, d, online, now, ok).store)
  {
    ShrinksItself(d.store);
    if Pick(d).0.Some? {
      var a := AttemptOf(d, now, ok);
      RepeatShrinks(env, d.(lastCheck := now, attempts := d.attempts + [a]), a.text, a.importance);
    }
  }

  lemma DispatchKeepsGate(env: Env, d: Device, online: bool, now: int, ok: bool)
    requires EntriesOk(env, d.store) && LogOk(d) && GateOk(env, d)
    ensures GateOk(env, Dispatch(env, d, online, now, ok))
  {
    if Pick(d).0.Some? {
      AttemptOrdered(env, d, now, ok);
    }
    DispatchShrinks(env, d, online, now, ok);
    DispatchFrame(env, d, online, now, ok);
    ShrinkKeepsBootEntry(env, d, Dispatch(env, d, online, now, ok));
  }

  lemma CreateKeeps(env: Env, d: Device, kind: Kind, uuid: string, payload: string, timestamp: string)
    requires DeviceOk(env, d) && Legal(env, d, DoCreate(kind, uuid, payload, timestamp))
    ensures DeviceOk(env, Create(env, d, kind, uuid, payload, timestamp))
  {
    if MayCreate(d, kind) {
      match Route(kind)
      case None =>
        ShrinksItself(d.store);
        ShrinkKeepsBootEntry(env, d, Create(env, d, kind, uuid, payload, timestamp));
      case Some(f) =>
        CreateStores(env, d, kind, uuid, payload, timestamp, f);
    }
  }

  lemma CreateStores(env: Env, d: Device, kind: Kind, uuid: string, payload: string, timestamp: string, f: nat)
    requires DeviceOk(env, d) && Legal(env, d, DoCreate(kind, uuid, payload, timestamp))
    requires MayCreate(d, kind) && Route(kind) == Some(f)
    ensures DeviceOk(env, Create(env, d, kind, uuid, payload, timestamp))
  {
    CreatedLines(env, d, kind, uuid, payload, timestamp, f);
    CreatedBootEntry(env, d, kind, uuid, payload, timestamp, f);
  }

  /** A created message changes the lines as saving it does. */
  lemma CreatedLines(env: Env, d: Device, kind: Kind, uuid: string, payload: string, timestamp: string, f: nat)
    requires DeviceOk(env, d) && Legal(env, d, DoCreate(kind, uuid, payload, timestamp))
    requires MayCreate(d, kind) && Route(kind) == Some(f)
    ensures var d' := Create(env, d, kind, uuid, payload, timestamp);
            var st := Save(env, d.store, f, CallText(uuid, ActionName(kind), payload), timestamp);
            && EntriesOk(env, d'.store) && |d'.store.slots| == |st.slots| == |d.store.slots|
            && d'.store.critical == d.store.critical && d'.store.named == (d.store.named || kind == Configuration)
            && forall g :: 0 <= g < |st.slots| ==> d'.store.slots[g].lines == st.slots[g].lines
  {
    var st := Save(env, d.store, f, CallText(uuid, ActionName(kind), payload), timestamp);
    SaveKeepsEntries(env, d, f, kind, uuid, payload, timestamp);
    MarksAlone(env, st, st.critical, true);
    RecountKeepsEntries(env, st.(named := true), CONNECTORS);
  }

  lemma CreatedBootEntry(env: Env, d: Device, kind: Kind, uuid: string, payload: string, timestamp: string, f: nat)
    requires DeviceOk(env, d) && Legal(env, d, DoCreate(kind, uuid, payload, timestamp))
    requires MayCreate(d, kind) && Route(kind) == Some(f)
    ensures var d' := Create(env, d, kind, uuid, payload, timestamp);
            d'.bootUuid != "" ==>
              forall g :: 0 <= g < |d'.store.slots| ==> BootEntryIn(env, d', d'.store.slots[g].lines)
  {
    var d' := Create(env, d, kind, uuid, payload, timestamp);
    CreatedLines(env, d, kind, uuid, payload, timestamp, f);
    forall g | 0 <= g < |d'.store.slots| && d'.bootUuid != ""
      ensures BootEntryIn(env, d', d'.store.slots[g].lines)
    {
      SavedLinesKeepBootEntry(env, d, d', kind, uuid, payload, timestamp, f, g);
    }
  }

  lemma SavedLinesKeepBootEntry(env: Env, d: Device, d': Device, kind: Kind, uuid: string, payload: string,
                                timestamp: string, f: nat, g: nat)
    requires DeviceOk(env, d) && Legal(env, d, DoCreate(kind, uuid, payload, timestamp)) && Route(kind) == Some(f)
    requires MayCreate(d, kind) && d'.bootUuid == Capture(d, kind, uuid, payload).bootUuid != ""
    requires d'.bootEntry == Capture(d, kind, uuid, payload).bootEntry && g < |d.store.slots|
    ensures BootEntryIn(env, d',
                        Save(env, d.store, f, CallText(uuid, ActionName(kind), payload), timestamp).slots[g].lines)
  {
    var text := CallText(uuid, ActionName(kind), payload);
    var line := Line(text, timestamp);
    var room := MakeRoom(env, d.store, f);
    MakeRoomKeepsEntries(env, d.store, f);
    assert Part(room.slots[g].lines, d.store.slots[g].lines);
    PartMembers(room.slots[g].lines, d.store.slots[g].lines);
    NewLine(env, kind, uuid, payload, timestamp, f);
    assert AllIdentified(env, d.store.slots[g].lines);
    forall x | x in d.store.slots[g].lines && UuidOf(env, x) == Some(d'.bootUuid)
      ensures Head(x) == d'.bootEntry
    {
      assert Identified(env, x);
      OccursTransitive(d'.bootUuid, Head(x), x);
      assert d'.bootUuid != uuid;
      assert BootEntryIn(env, d, d.store.slots[g].lines);
    }
  }

  /** A scan succeeds only for the UUID of a stored entry. */
  lemma {:induction false} ScanHits(env: Env, st: Store, uuid: string, f: nat, stop: nat) returns (g: nat, x: string)
    requires stop <= |st.slots| && ScanFrom(env, st, uuid, f, stop).Some?
    ensures f <= g < stop && x in st.slots[g].lines && UuidOf(env, x) == Some(uuid)
    ensures ActionOf(env, x) == ScanFrom(env, st, uuid, f, stop)
    decreases stop - f
  {
    if SearchFile(env, st.slots[f].lines, uuid).Some? {
      SearchHits(env, st.slots[f].lines, uuid);
      g := f;
      x :| x in st.slots[f].lines && UuidOf(env, x) == Some(uuid)
           && ActionOf(env, x) == SearchFile(env, st.slots[f].lines, uuid);
    } else {
      g, x := ScanHits(env, st, uuid, f + 1, stop);
    }
  }

  lemma LookupFound(env: Env, st: Store, uuid: string) returns (g: nat, x: string)
    requires EntriesOk(env, st) && Lookup(env, st, uuid).Some?
    ensures g < Visible(st) && x in st.slots[g].lines && UuidOf(env, x) == Some(uuid) && uuid != ""
    ensures ActionOf(env, x) == Lookup(env, st, uuid)
  {
    GuardedLookupSeesAll(env, st, uuid, REQUEST);
    g, x := ScanHits(env, st, uuid, REQUEST, Visible(st));
    assert AllIdentified(env, st.slots[g].lines) && Identified(env, x);
  }

  /** The parts of a device that a received message can touch. */
  lemma ResultEffect(env: Env, d: Device, items: seq<Item>)
    requires Shaped(d.store) && |items| >= 3
    ensures var d' := OnCallResult(env, d, items).0;
            d' == d
            || (&& items[1].Str? && Lookup(env, d.store, items[1].text).Some?
                && (d'.store == AnswerRequest(env, d.store, items[1].text)
                    || d'.store == AnswerFault(env, d.store, items[1].text))
                && (d' == d.(store := d'.store)
                    || (d' == d.(store := d'.store, exchanged := true) && d.bootUuid == items[1].text)))
  {
  }

  lemma ReceiveKeeps(env: Env, d: Device, inbound: Inbound)
    requires DeviceOk(env, d)
    ensures DeviceOk(env, Validate(env, d, inbound).0)
  {
    if inbound.Array? && Byte(|inbound.items|) == 3 {
      var items := inbound.items;
      var d' := OnCallResult(env, d, items).0;
      ResultEffect(env, d, items);
      if d' != d {
        var uuid := items[1].text;
        var g, x := LookupFound(env, d.store, uuid);
        AnswersKeepEntries(env, d.store, uuid);
        RewriteKeeps(env, d.store, REQUEST, ByUuid(uuid), Answered);
        AnswerFaultKeeps(env, d.store, uuid, ONLINE);
        assert Shrinks(d.store, d'.store) && EntriesOk(env, d'.store);
        ShrinkKeepsBootEntry(env, d, d');
      }
    }
  }
}
