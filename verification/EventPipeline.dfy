/** Three copies of an event record, from the CAN task over shared memory to the MQTT task.
    A one-bit version tells the MQTT task that there is something to publish. */
module EventPipeline {

  /** A copy of the record; version is how many events its bit has counted. */
  datatype Copy<R> = Copy(record: R, bit: bool, version: nat)

  /** accepted is the version at the last accepted check. */
  datatype Pipe<R> = Pipe(can: Copy<R>, ipc: Copy<R>, mqtt: Copy<R>, last: bool, accepted: nat, published: seq<R>)

  datatype Step<R> =
    | Frame(record: R)     // the CAN task fills in part of the record
    | Event(record: R)     // it completes the record and flips the bit
    | CanToIpc
    | IpcToMqtt
    | Check(enabled: bool) // the MQTT task compares the bit with the last one it saw

  function Next<R>(s: Pipe<R>, step: Step<R>): Pipe<R> {
    match step
    case Frame(record) => s.(can := s.can.(record := record))
    case Event(record) => s.(can := Copy(record, !s.can.bit, s.can.version + 1))
    case CanToIpc => s.(ipc := s.can)
    case IpcToMqtt => s.(mqtt := s.ipc)
    case Check(enabled) =>
      if enabled && s.mqtt.bit != s.last
      then s.(last := s.mqtt.bit, accepted := s.mqtt.version, published := s.published + [s.mqtt.record])
      else s
  }

  function Run<R>(s: Pipe<R>, steps: seq<Step<R>>): Pipe<R>
    decreases |steps|
  {
    if steps == [] then s else Run(Next(s, steps[0]), steps[1..])
  }

  /** All three copies and the last seen bit alike, nothing counted yet. */
  function Start<R>(record: R, bit: bool): Pipe<R> {
    var c := Copy(record, bit, 0);
    Pipe(c, c, c, bit, 0, [])
  }

  function Events<R>(steps: seq<Step<R>>): nat {
    if steps == [] then 0 else (if steps[0].Event? then 1 else 0) + Events(steps[1..])
  }

  // ---------------------------------------------------------------- any interleaving

  /** The bit is the parity of the version. */
  predicate Tagged<R>(c: Copy<R>, bit: bool) {
    c.bit == (bit != (c.version % 2 == 1))
  }

  /** Versions only get older along the pipe, and no more was published than accepted. */
  ghost predicate PipeOk<R>(s: Pipe<R>, bit: bool) {
    && Tagged(s.can, bit) && Tagged(s.ipc, bit) && Tagged(s.mqtt, bit)
    && s.accepted <= s.mqtt.version <= s.ipc.version <= s.can.version
    && s.last == (bit != (s.accepted % 2 == 1))
    && |s.published| <= s.accepted && |s.published| % 2 == s.accepted % 2
  }

  /** In any run, publishes never exceed events, and their parity is that of the version
      last accepted; so an even number of accepted events went unpublished. */
  lemma {:induction false} PublishesBounded<R>(s: Pipe<R>, steps: seq<Step<R>>, bit: bool)
    requires PipeOk(s, bit)
    ensures var r := Run(s, steps);
            && PipeOk(r, bit)
            && r.can.version == s.can.version + Events(steps)
            && |r.published| <= s.can.version + Events(steps)
            && |r.published| % 2 == r.accepted % 2
    decreases |steps|
  {
    if steps != [] {
      StepOk(s, steps[0], bit);
      PublishesBounded(Next(s, steps[0]), steps[1..], bit);
    }
  }

  lemma StepOk<R>(s: Pipe<R>, step: Step<R>, bit: bool)
    requires PipeOk(s, bit)
    ensures PipeOk(Next(s, step), bit)
    ensures Next(s, step).can.version == s.can.version + (if step.Event? then 1 else 0)
  {
  }

  lemma StartOk<R>(record: R, bit: bool)
    ensures PipeOk(Start(record, bit), bit)
  {
  }

  /** From start-up, whatever the tasks do: at most as many publishes as events, and as many as
      accepted versions modulo 2. */
  lemma PublishesInEveryRun<R>(record: R, bit: bool, steps: seq<Step<R>>)
    ensures var r := Run(Start(record, bit), steps);
            && |r.published| <= r.accepted <= r.can.version == Events(steps)
            && |r.published| % 2 == r.accepted % 2
  {
    StartOk(record, bit);
    PublishesBounded(Start(record, bit), steps, bit);
  }

  // ---------------------------------------------------------------- one event at a time

  predicate CopyOrCheck<R>(step: Step<R>) {
    step.CanToIpc? || step.IpcToMqtt? || step.Check?
  }

  function Advance<R>(step: Step<R>, stage: nat): nat {
    if stage == 0 && step.CanToIpc? then 1
    else if stage == 1 && step.IpcToMqtt? then 2
    else if stage == 2 && step == Check(true) then 3
    else stage
  }

  /** How far a copy, a copy and an enabled check have come, in this order. */
  function Progress<R>(steps: seq<Step<R>>, stage: nat): nat
    decreases |steps|
  {
    if steps == [] then stage else Progress(steps[1..], Advance(steps[0], stage))
  }

  /** Frames, copies and checks; then the event; then copies and checks among which the
      event goes all the way. */
  datatype Round<R> = Round(before: seq<Step<R>>, record: R, after: seq<Step<R>>)

  predicate Complete<R>(round: Round<R>) {
    && (forall k :: 0 <= k < |round.before| ==> CopyOrCheck(round.before[k]) || round.before[k].Frame?)
    && (forall k :: 0 <= k < |round.after| ==> CopyOrCheck(round.after[k]))
    && Progress(round.after, 0) == 3
  }

  function RunRound<R>(s: Pipe<R>, round: Round<R>): Pipe<R> {
    Run(Next(Run(s, round.before), Event(round.record)), round.after)
  }

  function RunRounds<R>(s: Pipe<R>, rounds: seq<Round<R>>): Pipe<R>
    decreases |rounds|
  {
    if rounds == [] then s else RunRounds(RunRound(s, rounds[0]), rounds[1..])
  }

  function Records<R>(rounds: seq<Round<R>>): seq<R> {
    if rounds == [] then [] else [rounds[0].record] + Records(rounds[1..])
  }

  /** Every copy has seen every event. */
  ghost predicate Settled<R>(s: Pipe<R>, bit: bool) {
    && PipeOk(s, bit)
    && s.accepted == s.mqtt.version == s.ipc.version == s.can.version
  }

  lemma {:induction false} BeforeStaysSettled<R>(s: Pipe<R>, steps: seq<Step<R>>, bit: bool)
    requires Settled(s, bit)
    requires forall k :: 0 <= k < |steps| ==> CopyOrCheck(steps[k]) || steps[k].Frame?
    ensures Settled(Run(s, steps), bit) && Run(s, steps).published == s.published
    decreases |steps|
  {
    if steps != [] {
      assert CopyOrCheck(steps[0]) || steps[0].Frame?;
      BeforeStaysSettled(Next(s, steps[0]), steps[1..], bit);
    }
  }

  /** Where the newest event stands: a copy with its version has its record, and it was
      published once, when it was accepted. */
  ghost predicate UnderWay<R>(s: Pipe<R>, bit: bool, record: R, published: seq<R>, stage: nat) {
    && PipeOk(s, bit) && s.can.version > 0 && s.can.record == record
    && s.accepted >= s.can.version - 1
    && (s.ipc.version == s.can.version ==> s.ipc.record == record)
    && (s.mqtt.version == s.can.version ==> s.mqtt.record == record)
    && s.published == (if s.accepted == s.can.version then published + [record] else published)
    && (stage >= 1 ==> s.ipc.version == s.can.version)
    && (stage >= 2 ==> s.mqtt.version == s.can.version)
    && (stage >= 3 ==> s.accepted == s.can.version)
  }

  lemma AfterStep<R>(s: Pipe<R>, step: Step<R>, bit: bool, record: R, published: seq<R>, stage: nat)
    requires UnderWay(s, bit, record, published, stage) && CopyOrCheck(step)
    ensures UnderWay(Next(s, step), bit, record, published, Advance(step, stage))
  {
    StepOk(s, step, bit);
  }

  lemma {:induction false} AfterArrives<R>(s: Pipe<R>, steps: seq<Step<R>>, bit: bool, record: R, published: seq<R>,
                                           stage: nat)
    requires UnderWay(s, bit, record, published, stage)
    requires forall k :: 0 <= k < |steps| ==> CopyOrCheck(steps[k])
    ensures UnderWay(Run(s, steps), bit, record, published, Progress(steps, stage))
    decreases |steps|
  {
    if steps != [] {
      assert CopyOrCheck(steps[0]);
      AfterStep(s, steps[0], bit, record, published, stage);
      AfterArrives(Next(s, steps[0]), steps[1..], bit, record, published, Advance(steps[0], stage));
    }
  }

  lemma RoundPublishes<R>(s: Pipe<R>, round: Round<R>, bit: bool)
    requires Settled(s, bit) && Complete(round)
    ensures Settled(RunRound(s, round), bit)
    ensures RunRound(s, round).published == s.published + [round.record]
    ensures RunRound(s, round).can.version == s.can.version + 1
  {
    BeforeStaysSettled(s, round.before, bit);
    PublishesBounded(s, round.before, bit);
    BeforeHasNoEvent(round.before);
    var s1 := Next(Run(s, round.before), Event(round.record));
    AfterArrives(s1, round.after, bit, round.record, s.published, 0);
    PublishesBounded(s1, round.after, bit);
    AfterHasNoEvent(round.after);
  }

  lemma {:induction false} BeforeHasNoEvent<R>(steps: seq<Step<R>>)
    requires forall k :: 0 <= k < |steps| ==> CopyOrCheck(steps[k]) || steps[k].Frame?
    ensures Events(steps) == 0
  {
    if steps != [] {
      assert CopyOrCheck(steps[0]) || steps[0].Frame?;
      BeforeHasNoEvent(steps[1..]);
    }
  }

  lemma AfterHasNoEvent<R>(steps: seq<Step<R>>)
    requires forall k :: 0 <= k < |steps| ==> CopyOrCheck(steps[k])
    ensures Events(steps) == 0
  {
    BeforeHasNoEvent(steps);
  }

  lemma RecordsFirst<R>(rounds: seq<Round<R>>, before: seq<R>)
    requires rounds != []
    ensures before + [rounds[0].record] + Records(rounds[1..]) == before + Records(rounds)
  {
  }

  /** If a copy, a copy and a check fall after each event and before the next frame, every
      event is published once, in order, with its own record. */
  lemma {:induction false} RoundsPublishAll<R>(s: Pipe<R>, rounds: seq<Round<R>>, bit: bool) returns (r: Pipe<R>)
    requires Settled(s, bit) && forall k :: 0 <= k < |rounds| ==> Complete(rounds[k])
    ensures r == RunRounds(s, rounds) && Settled(r, bit)
    ensures r.published == s.published + Records(rounds)
    ensures r.can.version == s.can.version + |rounds|
    decreases |rounds|
  {
    if rounds == [] {
      r := s;
    } else {
      RoundPublishes(s, rounds[0], bit);
      RecordsFirst(rounds, s.published);
      r := RoundsPublishAll(RunRound(s, rounds[0]), rounds[1..], bit);
    }
  }

  // ---------------------------------------------------------------- every stage is needed

  ghost predicate Lacks<R>(steps: seq<Step<R>>, missing: Step<R>) {
    forall k :: 0 <= k < |steps| ==> steps[k] != missing
  }

  lemma {:induction false} UncheckedStays<R>(s: Pipe<R>, steps: seq<Step<R>>)
    requires Lacks(steps, Check(true))
    ensures Run(s, steps).published == s.published
    decreases |steps|
  {
    if steps != [] {
      assert steps[0] != Check(true);
      UncheckedStays(Next(s, steps[0]), steps[1..]);
    }
  }

  lemma {:induction false} UncopiedStays<R>(s: Pipe<R>, steps: seq<Step<R>>)
    requires s.last == s.mqtt.bit
    requires Lacks(steps, IpcToMqtt) || (s.ipc.bit == s.last && Lacks(steps, CanToIpc))
    ensures Run(s, steps).published == s.published
    decreases |steps|
  {
    if steps != [] {
      assert Lacks(steps, IpcToMqtt) ==> steps[0] != IpcToMqtt;
      assert Lacks(steps, CanToIpc) ==> steps[0] != CanToIpc;
      UncopiedStays(Next(s, steps[0]), steps[1..]);
    }
  }

  /** Once every copy has seen every event, a run without copies to shared memory, without copies
      to the MQTT task, or without an enabled check publishes nothing, whatever events it has. */
  lemma EveryStageIsNeeded<R>(s: Pipe<R>, steps: seq<Step<R>>, bit: bool)
    requires Settled(s, bit)
    requires Lacks(steps, CanToIpc) || Lacks(steps, IpcToMqtt) || Lacks(steps, Check(true))
    ensures Run(s, steps).published == s.published
  {
    if Lacks(steps, Check(true)) {
      UncheckedStays(s, steps);
    } else {
      UncopiedStays(s, steps);
    }
  }

  // ---------------------------------------------------------------- the count alone

  /** A round in which frames of the next record may already arrive while the event is copied. */
  predicate Counted<R>(round: Round<R>) {
    && (forall k :: 0 <= k < |round.before| ==> CopyOrCheck(round.before[k]) || round.before[k].Frame?)
    && (forall k :: 0 <= k < |round.after| ==> CopyOrCheck(round.after[k]) || round.after[k].Frame?)
    && Progress(round.after, 0) == 3
  }

  /** Where the newest event stands, as far as versions go. */
  ghost predicate CountUnderWay<R>(s: Pipe<R>, bit: bool, published: nat, stage: nat) {
    && PipeOk(s, bit) && s.can.version > 0 && s.accepted >= s.can.version - 1
    && |s.published| == (if s.accepted == s.can.version then published + 1 else published)
    && (stage >= 1 ==> s.ipc.version == s.can.version)
    && (stage >= 2 ==> s.mqtt.version == s.can.version)
    && (stage >= 3 ==> s.accepted == s.can.version)
  }

  lemma CountStep<R>(s: Pipe<R>, step: Step<R>, bit: bool, published: nat, stage: nat)
    requires CountUnderWay(s, bit, published, stage) && (CopyOrCheck(step) || step.Frame?)
    ensures CountUnderWay(Next(s, step), bit, published, Advance(step, stage))
    ensures Next(s, step).can.version == s.can.version
  {
    StepOk(s, step, bit);
  }

  lemma {:induction false} CountArrives<R>(s: Pipe<R>, steps: seq<Step<R>>, bit: bool, published: nat, stage: nat)
    requires CountUnderWay(s, bit, published, stage)
    requires forall k :: 0 <= k < |steps| ==> CopyOrCheck(steps[k]) || steps[k].Frame?
    ensures CountUnderWay(Run(s, steps), bit, published, Progress(steps, stage))
    ensures Run(s, steps).can.version == s.can.version
    decreases |steps|
  {
    if steps != [] {
      assert CopyOrCheck(steps[0]) || steps[0].Frame?;
      CountStep(s, steps[0], bit, published, stage);
      CountArrives(Next(s, steps[0]), steps[1..], bit, published, Advance(steps[0], stage));
    }
  }

  lemma RoundCounts<R>(s: Pipe<R>, round: Round<R>, bit: bool)
    requires Settled(s, bit) && Counted(round)
    ensures Settled(RunRound(s, round), bit)
    ensures |RunRound(s, round).published| == |s.published| + 1
    ensures RunRound(s, round).can.version == s.can.version + 1
  {
    BeforeStaysSettled(s, round.before, bit);
    PublishesBounded(s, round.before, bit);
    BeforeHasNoEvent(round.before);
    var s1 := Next(Run(s, round.before), Event(round.record));
    CountArrives(s1, round.after, bit, |s.published|, 0);
  }

  /** If only a copy, a copy and a check fall after each event and before the next event, frames
      or no frames, publishes equal events. */
  lemma {:induction false} RoundsPublishAsMany<R>(s: Pipe<R>, rounds: seq<Round<R>>, bit: bool) returns (r: Pipe<R>)
    requires Settled(s, bit) && forall k :: 0 <= k < |rounds| ==> Counted(rounds[k])
    ensures r == RunRounds(s, rounds) && Settled(r, bit)
    ensures |r.published| - |s.published| == r.can.version - s.can.version == |rounds|
    decreases |rounds|
  {
    if rounds == [] {
      r := s;
    } else {
      RoundCounts(s, rounds[0], bit);
      r := RoundsPublishAsMany(RunRound(s, rounds[0]), rounds[1..], bit);
    }
  }

  // ---------------------------------------------------------------- bursts

  /** Events that follow each other before anything is copied. */
  function Burst<R>(records: seq<R>): seq<Step<R>> {
    if records == [] then [] else Burst(records[..|records| - 1]) + [Event(records[|records| - 1])]
  }

  lemma {:induction false} RunSnoc<R>(s: Pipe<R>, steps: seq<Step<R>>, last: Step<R>)
    ensures Run(s, steps + [last]) == Next(Run(s, steps), last)
    decreases |steps|
  {
    if steps == [] {
      assert Run(s, [last]) == Run(Next(s, last), [last][1..]) && [last][1..] == [];
      assert steps + [last] == [last];
    } else {
      assert (steps + [last])[0] == steps[0] && (steps + [last])[1..] == steps[1..] + [last];
      RunSnoc(Next(s, steps[0]), steps[1..], last);
    }
  }

  lemma {:induction false} BurstRuns<R>(s: Pipe<R>, records: seq<R>, bit: bool)
    requires Settled(s, bit) && records != []
    ensures var n, r := |records|, Run(s, Burst(records));
            r == s.(can := Copy(records[n - 1], s.can.bit != (n % 2 == 1), s.can.version + n))
  {
    var front := records[..|records| - 1];
    RunSnoc(s, Burst(front), Event(records[|records| - 1]));
    if front != [] {
      BurstRuns(s, front, bit);
    } else {
      assert Run(s, Burst(front)) == s;
    }
  }

  lemma FullCheck<R>(s: Pipe<R>, steps: seq<Step<R>>)
    ensures Run(s, steps + [CanToIpc] + [IpcToMqtt] + [Check(true)]) ==
            Next(Next(Next(Run(s, steps), CanToIpc), IpcToMqtt), Check(true))
  {
    RunSnoc(s, steps, CanToIpc);
    RunSnoc(s, steps + [CanToIpc], IpcToMqtt);
    RunSnoc(s, steps + [CanToIpc] + [IpcToMqtt], Check(true));
  }

  /** A burst of events before a check publishes its last record if it has an odd number of
      events, and nothing at all if it has an even number: the bit is back where it was. */
  lemma BurstPublishesIfOdd<R>(s: Pipe<R>, records: seq<R>, bit: bool)
    requires Settled(s, bit) && records != []
    ensures Run(s, Burst(records) + [CanToIpc] + [IpcToMqtt] + [Check(true)]).published ==
            s.published + (if |records| % 2 == 1 then [records[|records| - 1]] else [])
  {
    FullCheck(s, Burst(records));
    BurstRuns(s, records, bit);
  }

  // ---------------------------------------------------------------- the tasks

  /** The global copies and the bits of the three tasks. */
  class Tasks<R(==)> {
    var canRecord: R
    var canBit: bool
    var ipcRecord: R
    var ipcBit: bool
    var mqttRecord: R
    var mqttBit: bool
    var lastBit: bool
    var published: seq<R>
    ghost var versions: (nat, nat, nat, nat)

    ghost function State(): Pipe<R>
      reads this
    {
      Pipe(Copy(canRecord, canBit, versions.0), Copy(ipcRecord, ipcBit, versions.1),
           Copy(mqttRecord, mqttBit, versions.2), lastBit, versions.3, published)
    }

    constructor (record: R, bit: bool)
      ensures State() == Start(record, bit)
    {
      canRecord, ipcRecord, mqttRecord := record, record, record;
      canBit, ipcBit, mqttBit, lastBit := bit, bit, bit, bit;
      published := [];
      versions := (0, 0, 0, 0);
    }

    method ReceiveFrame(record: R)
      modifies this`canRecord
      ensures State() == Next(old(State()), Frame(record))
    {
      canRecord := record;
    }

    method CompleteEvent(record: R)
      modifies this`canRecord, this`canBit, this`versions
      ensures State() == Next(old(State()), Event(record))
    {
      canRecord := record;
      canBit := !canBit;
      versions := (versions.0 + 1, versions.1, versions.2, versions.3);
    }

    method CopyToIpc()
      modifies this`ipcRecord, this`ipcBit, this`versions
      ensures State() == Next(old(State()), CanToIpc)
    {
      ipcRecord, ipcBit := canRecord, canBit;
      versions := (versions.0, versions.0, versions.2, versions.3);
    }

    method CopyToMqtt()
      modifies this`mqttRecord, this`mqttBit, this`versions
      ensures State() == Next(old(State()), IpcToMqtt)
    {
      mqttRecord, mqttBit := ipcRecord, ipcBit;
      versions := (versions.0, versions.1, versions.1, versions.3);
    }

    method PublishIfChanged(enabled: bool)
      modifies this`lastBit, this`published, this`versions
      ensures State() == Next(old(State()), Check(enabled))
    {
      if mqttBit != lastBit && enabled {
        lastBit := mqttBit;
        published := published + [mqttRecord];
        versions := (versions.0, versions.1, versions.2, versions.2);
      }
    }
  }
}
