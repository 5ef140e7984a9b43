/** Dispatch order is not live: a charging session at the head of the request file stops all
    publishing while the gate is closed, the configuration message that would open it included. */
module DeviceStalls {
  import opened Wrappers
  import opened Text
  import opened Entries
  import opened StoreModel
  import opened StoreFacts
  import opened DeviceModel
  import opened DeviceFacts
  import opened DeviceRuns
  import opened DeviceTheorems
  import opened DeviceQueues

  /** A charging session heads the request file while the gate is closed. */
  predicate Stalled(d: Device) {
    && Shaped(d.store) && !d.exchanged && d.store.slots[REQUEST].lines != []
    && Importance(Head(d.store.slots[REQUEST].lines[0])) == 2
  }

  predicate StalledBy(d: Device, line: string) {
    Stalled(d) && d.store.slots[REQUEST].lines[0] == line
  }

  /** A restart reaches that state exactly if such a session heads the file. */
  lemma RestartStallsIff(env: Env, d: Device)
    requires DeviceOk(env, d)
    ensures Stalled(Reboot(d)) <==> d.store.slots[REQUEST].lines != []
                                    && Importance(Head(d.store.slots[REQUEST].lines[0])) == 2
  {
    MarksAlone(env, d.store, 0, false);
    RecountKeeps(env, d.store.(critical := 0, named := false), REQUEST);
  }

  /** No dispatch of a stalled device does anything at all. */
  lemma StalledSendsNothing(env: Env, d: Device, online: bool, now: int, ok: bool)
    requires Stalled(d)
    ensures Dispatch(env, d, online, now, ok) == d
  {
  }

  // ---------------------------------------------------------------- what ends a stall

  /** The session's own response arrives, and takes it out. */
  predicate SessionAnswered(env: Env, d: Device, step: Step, after: Device)
    requires Stalled(d)
  {
    var lines := d.store.slots[REQUEST].lines;
    && step.DoReceive? && Names(step.inbound, UuidOf(env, lines[0]))
    && Shaped(after.store) && after.store.slots[REQUEST].lines == lines[1..]
  }

  /** The file is counted full, and a new message takes the session's place. */
  predicate SessionEvicted(d: Device, step: Step, after: Device)
    requires Stalled(d)
  {
    var slot := d.store.slots[REQUEST];
    && step.DoCreate? && slot.count >= Cap(REQUEST)
    && Shaped(after.store)
    && after.store.slots[REQUEST].lines ==
       slot.lines[1..] + [Written(step.kind, step.uuid, step.payload, step.timestamp)]
  }

  /** A response arrives to the configuration message of this boot, although a device stalled since
      its restart never sent it. */
  predicate BootAnswered(d: Device, step: Step, after: Device) {
    step.DoReceive? && Names(step.inbound, Some(d.bootUuid)) && after.exchanged
  }

  predicate EndsStall(env: Env, d: Device, step: Step, after: Device)
    requires Stalled(d)
  {
    SessionAnswered(env, d, step, after) || SessionEvicted(d, step, after) || BootAnswered(d, step, after)
  }

  /** The head stays unless it is the line taken out; a line taken out does not come back. */
  lemma HeadMoves(lines: seq<string>, m: Move)
    requires lines != [] && Possible(lines, m) && Distinct(lines)
    requires m.Enter? || m.Evict? ==> m.line !in lines
    ensures var after := Moved(lines, m);
            var gone := (m.Leave? || m.Evict?) && m.k == 0;
            && (!gone ==> after != [] && after[0] == lines[0])
            && (gone ==> after == lines[1..] + (if m.Evict? then [m.line] else []))
            && (gone && after != [] ==> after[0] != lines[0])
  {
    assert lines[..0] + lines[1..] == lines[1..];
    if m.Evict? && m.k == 0 {
      assert m.line != lines[0];
    }
  }

  lemma NewLineIsNew(env: Env, d: Device, step: Step, f: nat)
    requires step.DoCreate? && Legal(env, d, step) && f < |d.store.slots|
    ensures Written(step.kind, step.uuid, step.payload, step.timestamp) !in d.store.slots[f].lines
  {
    var text := CallText(step.uuid, ActionName(step.kind), step.payload);
    CallTextShows(step.uuid, ActionName(step.kind), step.payload);
    LineReads(env, text, step.timestamp, step.uuid, ActionName(step.kind));
    OccursTransitive(step.uuid, text, Line(text, step.timestamp));
  }

  /** What a step does to the head of a stalled device's request file. */
  lemma StallHead(env: Env, d: Device, step: Step, line: string)
    requires DeviceOk(env, d) && Legal(env, d, step) && StalledBy(d, line)
    ensures var after := Next(env, d, step);
            && Shaped(after.store)
            && var lines := after.store.slots[REQUEST].lines;
            var taken := SessionAnswered(env, d, step, after) || SessionEvicted(d, step, after);
            && (taken ==> lines == [] || lines[0] != line)
            && (!taken && !step.DoDispatch? ==> lines != [] && lines[0] == line)
  {
    var lines := d.store.slots[REQUEST].lines;
    var m := StepMoves(env, d, step, REQUEST);
    assert ApartFile(env, lines);
    ApartIsDistinct(env, lines);
    if step.DoCreate? {
      NewLineIsNew(env, d, step, REQUEST);
    }
    HeadMoves(lines, m);
  }

  lemma StallGate(env: Env, d: Device, step: Step)
    requires DeviceOk(env, d) && Legal(env, d, step) && Stalled(d)
    ensures Next(env, d, step).exchanged <==> BootAnswered(d, step, Next(env, d, step))
  {
    if Next(env, d, step).exchanged {
      var f, x := GateOpensOnlyOnBootResponse(env, d, step);
    }
  }

  /** One step of a stalled device: it stays stalled by the same session, unless it is one of
      the three that end the stall. */
  lemma StallEndsIff(env: Env, d: Device, step: Step, line: string)
    requires DeviceOk(env, d) && Legal(env, d, step) && StalledBy(d, line)
    ensures !StalledBy(Next(env, d, step), line) <==> EndsStall(env, d, step, Next(env, d, step))
  {
    StallHead(env, d, step, line);
    StallGate(env, d, step);
    if step.DoDispatch? {
      StalledSendsNothing(env, d, step.online, step.now, step.ok);
    }
  }

  lemma StalledAttemptsNothing(env: Env, d: Device, step: Step)
    requires DeviceOk(env, d) && Legal(env, d, step) && Stalled(d) && !step.DoReboot?
    ensures Next(env, d, step).attempts == d.attempts
  {
    if step.DoDispatch? {
      StalledSendsNothing(env, d, step.online, step.now, step.ok);
    } else if step.DoReceive? {
      ReceiveAttemptsNothing(env, d, step.inbound);
    }
  }

  lemma ReceiveAttemptsNothing(env: Env, d: Device, inbound: Inbound)
    requires Shaped(d.store)
    ensures Validate(env, d, inbound).0.attempts == d.attempts
  {
    if inbound.Array? && Byte(|inbound.items|) == 3 {
      ResultEffect(env, d, inbound.items);
    }
  }

  // ---------------------------------------------------------------- whole runs

  /** After i steps of the run the device is still stalled by the line; nothing was attempted,
      and step i attempts nothing. */
  ghost predicate StalledAt(env: Env, d: Device, steps: seq<Step>, i: nat, line: string)
    requires i <= |steps|
  {
    && LegalRun(env, d, steps[..i])
    && var r := Run(env, d, steps[..i]);
    && StalledBy(r, line) && (NoReboot(steps[..i]) ==> r.attempts == d.attempts)
    && (i < |steps| && steps[i].DoDispatch? ==> Next(env, r, steps[i]) == r)
  }

  /** Step i ends the stall. */
  ghost predicate EndsAt(env: Env, d: Device, steps: seq<Step>, i: nat)
    requires i < |steps|
  {
    && LegalRun(env, d, steps[..i]) && LegalRun(env, d, steps[..i + 1])
    && var before, after := Run(env, d, steps[..i]), Run(env, d, steps[..i + 1]);
    Stalled(before) && EndsStall(env, before, steps[i], after)
  }

  /** In every run of a stalled device, however long and with whatever messages and restarts,
      nothing is published until the session at the head is answered, or evicted from a file
      counted full, or a response arrives to the configuration message of this boot. */
  lemma {:induction false} SessionAtHeadStalls(env: Env, d: Device, steps: seq<Step>, line: string) returns (n: nat)
    requires DeviceOk(env, d) && LegalRun(env, d, steps) && StalledBy(d, line)
    ensures n <= |steps| && forall i :: 0 <= i <= n ==> StalledAt(env, d, steps, i, line)
    ensures n < |steps| ==> EndsAt(env, d, steps, n)
    decreases |steps|
  {
    n := 0;
    StalledNow(env, d, steps, line);
    if steps != [] {
      var d1 := RunFirst(env, d, steps);
      StallEndsIff(env, d, steps[0], line);
      if !steps[0].DoReboot? {
        StalledAttemptsNothing(env, d, steps[0]);
      }
      if StalledBy(d1, line) {
        var m := SessionAtHeadStalls(env, d1, steps[1..], line);
        n := m + 1;
        forall i | 0 < i <= n ensures StalledAt(env, d, steps, i, line) {
          StalledLater(env, d, steps, i, line);
        }
        if n < |steps| {
          EndsLater(env, d, steps, m);
        }
      } else {
        EndsNow(env, d, steps);
      }
    }
  }

  lemma StalledNow(env: Env, d: Device, steps: seq<Step>, line: string)
    requires LegalRun(env, d, steps) && StalledBy(d, line)
    ensures StalledAt(env, d, steps, 0, line)
  {
    assert steps[..0] == [];
    if steps != [] && steps[0].DoDispatch? {
      StalledSendsNothing(env, d, steps[0].online, steps[0].now, steps[0].ok);
    }
  }

  lemma EndsNow(env: Env, d: Device, steps: seq<Step>)
    requires DeviceOk(env, d) && LegalRun(env, d, steps) && steps != [] && Stalled(d)
    requires EndsStall(env, d, steps[0], Next(env, d, steps[0]))
    ensures EndsAt(env, d, steps, 0)
  {
    PrefixIsLegal(env, d, steps, 0);
    PrefixIsLegal(env, d, steps, 1);
    RunPrefix(env, d, steps, 1);
    assert steps[..0] == [] && steps[1..][..0] == [];
  }

  lemma StalledLater(env: Env, d: Device, steps: seq<Step>, i: nat, line: string)
    requires DeviceOk(env, d) && LegalRun(env, d, steps) && 0 < i <= |steps|
    requires !steps[0].DoReboot? ==> Next(env, d, steps[0]).attempts == d.attempts
    requires StalledAt(env, Next(env, d, steps[0]), steps[1..], i - 1, line)
    ensures StalledAt(env, d, steps, i, line)
  {
    PrefixIsLegal(env, d, steps, i);
    RunPrefix(env, d, steps, i);
    if NoReboot(steps[..i]) {
      RebootsLater(steps, i);
    }
    assert i < |steps| ==> steps[1..][i - 1] == steps[i];
  }

  lemma RebootsLater(steps: seq<Step>, i: nat)
    requires 0 < i <= |steps| && NoReboot(steps[..i])
    ensures !steps[0].DoReboot? && NoReboot(steps[1..][..i - 1])
  {
    assert !steps[..i][0].DoReboot?;
    var rest := steps[1..][..i - 1];
    forall j | 0 <= j < |rest| ensures !rest[j].DoReboot? {
      assert rest[j] == steps[..i][j + 1];
    }
  }

  lemma EndsLater(env: Env, d: Device, steps: seq<Step>, i: nat)
    requires DeviceOk(env, d) && LegalRun(env, d, steps) && i + 1 < |steps|
    requires EndsAt(env, Next(env, d, steps[0]), steps[1..], i)
    ensures EndsAt(env, d, steps, i + 1)
  {
    PrefixIsLegal(env, d, steps, i + 1);
    PrefixIsLegal(env, d, steps, i + 2);
    RunPrefix(env, d, steps, i + 1);
    RunPrefix(env, d, steps, i + 2);
  }
}
