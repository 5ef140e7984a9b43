/** Reporting configuration changes: the main loop compares its two copies and raises dirty
    flags, and the MQTT task sends the flagged fields and clears their flags. */
module ConfigSync {

  datatype BasicField = AutoCharge | Brand | ChargerPower | ServerChargerPower | DynamicPowerSharing
    | EnergyMeterSetting | ZeroMeterStartEnable | OcppUrl | ConfigKeyValue | Tariff | Eeprom | Rtc
  datatype ConnectorField = CommController | Voltage | Current | Power | ServerPower | ServerCurrent
  datatype VersionField = Hmi | Lcu | Mcu | Pmu
  datatype LocalField = WifiSsid | WifiPassword | MqttBroker | SerialNumber

  /** The configuration: the connector fields exist once for each of the two connectors. */
  datatype Field =
    | PmuEnable
    | Basic(b: BasicField)
    | Connector(second: bool, c: ConnectorField)
    | Version(v: VersionField)
    | Local(l: LocalField)

  /** The flags that guard a whole block of the message. */
  datatype Group = Connectors | Connector1 | Connector2 | VersionInfo

  /** Unset is the FLT_MAX that a limit holds until it is received. */
  datatype Value = Unset | Number(n: real) | Text(s: string)

  function Blank(): (m: map<Field, Value>)
    ensures forall f: Field :: f in m && m[f] == Unset
  {
    var basics := map b: BasicField | true :: Basic(b) := Unset;
    var connectors := map second: bool, c: ConnectorField | true :: Connector(second, c) := Unset;
    var versions := map v: VersionField | true :: Version(v) := Unset;
    var locals := map l: LocalField | true :: Local(l) := Unset;
    assert forall f: Field :: f.Basic? ==> f in basics by {
      forall f: Field | f.Basic? ensures f in basics {
        assert f == Basic(f.b);
      }
    }
    assert forall f: Field :: f.Connector? ==> f in connectors by {
      forall f: Field | f.Connector? ensures f in connectors {
        assert f == Connector(f.second, f.c);
      }
    }
    map[PmuEnable := Unset] + basics + connectors + versions + locals
  }

  type Config = m: map<Field, Value> | forall f: Field :: f in m
    witness Blank()

  /** ipc and mqtt are the two copies in the firmware; replica is what a receiver holds that
      applies every ConfigurationData message in order. */
  datatype Sync = Sync(ipc: Config, mqtt: Config, replica: Config, own: set<Field>, groups: set<Group>,
                       configData: bool, exchanged: bool)

  // ---------------------------------------------------------------- the two sides

  /** check_config_data_changes looks at every field but these two. */
  predicate Compared(f: Field) {
    f != Basic(Eeprom) && f != Basic(Rtc)
  }

  /** The groups a change of the field raises, as check_config_data_changes writes them: the
      server limits raise the group of connector 1 for both connectors. */
  function Raised(f: Field): set<Group> {
    match f
    case Connector(second, c) =>
      if second && !c.ServerPower? && !c.ServerCurrent? then {Connectors, Connector2} else {Connectors, Connector1}
    case Version(_) => {VersionInfo}
    case _ => {}
  }

  /** The message has no place for the local fields. */
  predicate Reported(f: Field) {
    !f.Local?
  }

  /** The groups whose blocks of the message the field sits in. */
  function Needed(f: Field): set<Group> {
    match f
    case Connector(second, _) => if second then {Connectors, Connector2} else {Connectors, Connector1}
    case Version(_) => {VersionInfo}
    case _ => {}
  }

  /** Limits are left out of a message while they are Unset. */
  predicate Guarded(f: Field) {
    f == Basic(ChargerPower) || (f.Connector? && (f.c.Voltage? || f.c.Current? || f.c.Power?))
  }

  predicate Enabled(s: Sync) {
    s.mqtt[PmuEnable] == Number(1.0)
  }

  /** The blocks around the field are part of the message: only pmuStatus is outside the test
      of pmuEnable. */
  predicate Reached(s: Sync, f: Field) {
    Reported(f) && Needed(f) <= s.groups && (f == PmuEnable || Enabled(s))
  }

  predicate Ready(s: Sync, f: Field) {
    f in s.own && !(Guarded(f) && s.mqtt[f] == Unset)
  }

  // ---------------------------------------------------------------- steps

  function Changed(s: Sync): set<Field> {
    set f | f in s.ipc && Compared(f) && s.ipc[f] != s.mqtt[f]
  }

  function GroupsOf(fs: set<Field>): set<Group> {
    set f, g | f in fs && g in Raised(f) :: g
  }

  /** The IPC section of the main loop. */
  function Copy(s: Sync): Sync {
    var fs := if s.exchanged then Changed(s) else {};
    s.(own := s.own + fs, groups := s.groups + GroupsOf(fs), mqtt := s.ipc,
       configData := s.configData || fs != {})
  }

  function GroupsLeft(s: Sync): set<Group> {
    if Enabled(s) then LeftWhenEnabled(s.groups) else s.groups
  }

  function LeftWhenEnabled(groups: set<Group>): set<Group> {
    groups - (if Connectors in groups then {Connectors, Connector1, Connector2, VersionInfo} else {VersionInfo})
  }

  predicate Sent(s: Sync, f: Field) {
    Reached(s, f) && Ready(s, f)
  }

  /** The fields sent lose their flag. shown is the value a field is reported as: some are
      rounded, and the PMU version is a constant. */
  function Emitted(s: Sync, shown: (Field, Value) -> Value): Sync {
    s.(own := (set f | f in s.own && !Sent(s, f)),
       replica := map f | f in s.replica :: if Sent(s, f) then shown(f, s.mqtt[f]) else s.replica[f],
       groups := GroupsLeft(s))
  }

  /** The ConfigurationData case of mqtt_task. */
  function Send(s: Sync, shown: (Field, Value) -> Value): Sync {
    if !s.configData then s else Emitted(s, shown).(configData := false)
  }

  /** Step Arrive is a CAN configuration frame reaching the IPC copy, Exchange the response to
      the boot message. */
  datatype Step = Arrive(ipc: Config) | CopyStep | SendStep | Exchange

  function Next(s: Sync, step: Step, shown: (Field, Value) -> Value): Sync {
    match step
    case Arrive(ipc) => s.(ipc := ipc)
    case CopyStep => Copy(s)
    case SendStep => Send(s, shown)
    case Exchange => s.(exchanged := true)
  }

  function Run(s: Sync, steps: seq<Step>, shown: (Field, Value) -> Value): Sync {
    if steps == [] then s else Next(Run(s, steps[..|steps| - 1], shown), steps[|steps| - 1], shown)
  }

  // ---------------------------------------------------------------- the invariant

  /** Everything but the local fields, the EEPROM and RTC states, and the two server limits of
      connector B. */
  predicate Tracked(f: Field) {
    && !f.Local? && f != Basic(Eeprom) && f != Basic(Rtc)
    && f != Connector(true, ServerPower) && f != Connector(true, ServerCurrent)
  }

  /** These are exactly the fields that are compared and reported and whose change raises all the
      groups that sending them needs. */
  lemma TrackedIff(f: Field)
    ensures Tracked(f) <==> Compared(f) && Reported(f) && Needed(f) <= Raised(f)
  {
    if f == Connector(true, ServerPower) || f == Connector(true, ServerCurrent) {
      assert Connector2 in Needed(f) && Connector2 !in Raised(f);
    }
  }

  /** Of the fields that are both compared and reported, exactly the two connector-B server
      limits raise the wrong group. */
  lemma WrongGroupIff(f: Field)
    requires Compared(f) && Reported(f)
    ensures !(Needed(f) <= Raised(f)) <==> f == Connector(true, ServerPower) || f == Connector(true, ServerCurrent)
  {
    TrackedIff(f);
  }

  predicate Agrees(s: Sync, f: Field, shown: (Field, Value) -> Value) {
    s.replica[f] == shown(f, s.mqtt[f]) || (Guarded(f) && s.mqtt[f] == Unset)
  }

  predicate Flagged(s: Sync, f: Field) {
    f in s.own && Needed(f) <= s.groups
  }

  /** The field agrees or is fully flagged; and if it disagrees while it could be sent, a
      message is due. */
  predicate Covered(s: Sync, f: Field, shown: (Field, Value) -> Value) {
    Agrees(s, f, shown) || (Flagged(s, f) && (f == PmuEnable || Enabled(s) ==> s.configData))
  }

  /** The field is watched, and the two copies differ in it: every field but the EEPROM and RTC
      states is. */
  predicate Differs(s: Sync, f: Field) {
    s.ipc[f] != s.mqtt[f] && f != Basic(Eeprom) && f != Basic(Rtc)
  }

  /** What a copy raises once the boot message was answered: the flag of each field that differs,
      the groups of connectors and versions, with the server limits of both connectors counted for
      connector 1, and a message. */
  lemma CopyOutcome(s: Sync, f: Field)
    ensures var r := Copy(s);
            && r.mqtt == s.ipc && r.ipc == s.ipc && r.replica == s.replica && r.exchanged == s.exchanged
            && (f in r.own <==> f in s.own || (s.exchanged && Differs(s, f)))
            && (r.configData <==> s.configData || (s.exchanged && exists g: Field :: Differs(s, g)))
    ensures var raised := Copy(s).groups;
            && (Connectors in raised <==> Connectors in s.groups || (s.exchanged && ConnectorDiffers(s)))
            && (Connector1 in raised <==> Connector1 in s.groups || (s.exchanged && FirstDiffers(s)))
            && (Connector2 in raised <==> Connector2 in s.groups || (s.exchanged && SecondDiffers(s)))
            && (VersionInfo in raised <==> VersionInfo in s.groups || (s.exchanged && VersionDiffers(s)))
  {
    if s.exchanged {
      ChangedIs(s);
      RaisedIff(s, Connectors);
      RaisedIff(s, Connector1);
      RaisedIff(s, Connector2);
      RaisedIff(s, VersionInfo);
      ConnectorsRaised(s);
      FirstRaised(s);
      SecondRaised(s);
      VersionsRaised(s);
    } else {
      assert GroupsOf({}) == {};
    }
  }

  ghost predicate RaisesSome(s: Sync, g: Group) {
    exists f :: f in Changed(s) && g in Raised(f)
  }

  lemma RaisesBy(s: Sync, g: Group, f: Field)
    requires Differs(s, f) && g in Raised(f)
    ensures RaisesSome(s, g)
  {
    assert f in Changed(s);
  }

  lemma ConnectorsRaised(s: Sync)
    ensures RaisesSome(s, Connectors) <==> ConnectorDiffers(s)
  {
    if ConnectorDiffers(s) {
      var second, c :| s.ipc[Connector(second, c)] != s.mqtt[Connector(second, c)];
      RaisesBy(s, Connectors, Connector(second, c));
    }
  }

  lemma FirstRaised(s: Sync)
    ensures RaisesSome(s, Connector1) <==> FirstDiffers(s)
  {
    if exists c: ConnectorField :: s.ipc[Connector(false, c)] != s.mqtt[Connector(false, c)] {
      var c :| s.ipc[Connector(false, c)] != s.mqtt[Connector(false, c)];
      RaisesBy(s, Connector1, Connector(false, c));
    } else if FirstDiffers(s) {
      RaisesBy(s, Connector1, if Differs(s, Connector(true, ServerPower)) then Connector(true, ServerPower)
                              else Connector(true, ServerCurrent));
    }
  }

  lemma SecondRaised(s: Sync)
    ensures RaisesSome(s, Connector2) <==> SecondDiffers(s)
  {
    if SecondDiffers(s) {
      var c := if Differs(s, Connector(true, CommController)) then CommController
               else if Differs(s, Connector(true, Voltage)) then Voltage
               else if Differs(s, Connector(true, Current)) then Current
               else Power;
      RaisesBy(s, Connector2, Connector(true, c));
    }
  }

  lemma VersionsRaised(s: Sync)
    ensures RaisesSome(s, VersionInfo) <==> VersionDiffers(s)
  {
    if VersionDiffers(s) {
      var v :| s.ipc[Version(v)] != s.mqtt[Version(v)];
      RaisesBy(s, VersionInfo, Version(v));
    }
  }

  lemma ChangedIs(s: Sync)
    ensures forall f: Field :: f in Changed(s) <==> Differs(s, f)
  {
  }

  predicate ConnectorDiffers(s: Sync) {
    exists second: bool, c: ConnectorField :: s.ipc[Connector(second, c)] != s.mqtt[Connector(second, c)]
  }

  predicate FirstDiffers(s: Sync) {
    || (exists c: ConnectorField :: s.ipc[Connector(false, c)] != s.mqtt[Connector(false, c)])
    || s.ipc[Connector(true, ServerPower)] != s.mqtt[Connector(true, ServerPower)]
    || s.ipc[Connector(true, ServerCurrent)] != s.mqtt[Connector(true, ServerCurrent)]
  }

  predicate SecondDiffers(s: Sync) {
    || s.ipc[Connector(true, CommController)] != s.mqtt[Connector(true, CommController)]
    || s.ipc[Connector(true, Voltage)] != s.mqtt[Connector(true, Voltage)]
    || s.ipc[Connector(true, Current)] != s.mqtt[Connector(true, Current)]
    || s.ipc[Connector(true, Power)] != s.mqtt[Connector(true, Power)]
  }

  predicate VersionDiffers(s: Sync) {
    exists v: VersionField :: s.ipc[Version(v)] != s.mqtt[Version(v)]
  }

  lemma CopyCovers(s: Sync, f: Field, shown: (Field, Value) -> Value)
    requires s.exchanged && Tracked(f) && Covered(s, f, shown)
    ensures Covered(Copy(s), f, shown)
  {
    if f in Changed(s) {
      assert Raised(f) <= GroupsOf(Changed(s));
    } else if !Enabled(s) && s.ipc[PmuEnable] == Number(1.0) {
      assert PmuEnable in Changed(s);
    }
  }

  lemma SendCovers(s: Sync, f: Field, shown: (Field, Value) -> Value)
    requires Tracked(f) && Covered(s, f, shown)
    ensures Covered(Send(s, shown), f, shown)
    ensures s.configData && (f == PmuEnable || Enabled(s)) ==> Agrees(Send(s, shown), f, shown)
  {
  }

  lemma StepCovers(s: Sync, step: Step, f: Field, shown: (Field, Value) -> Value)
    requires s.exchanged && Tracked(f) && Covered(s, f, shown)
    ensures Next(s, step, shown).exchanged && Covered(Next(s, step, shown), f, shown)
  {
    if step.CopyStep? {
      CopyCovers(s, f, shown);
    } else if step.SendStep? {
      SendCovers(s, f, shown);
    }
  }

  /** In every run from an exchanged state: a tracked field of the receiver's copy that agrees
      with the firmware's, or has all its flags up, goes on to do so; and if it disagrees while
      reporting is enabled, a message is due. */
  lemma {:induction false} CoveredInEveryRun(s: Sync, steps: seq<Step>, f: Field, shown: (Field, Value) -> Value)
    requires s.exchanged && Tracked(f) && Covered(s, f, shown)
    ensures var r := Run(s, steps, shown);
            && r.exchanged && Covered(r, f, shown)
            && (Agrees(r, f, shown) || Flagged(r, f))
            && (!Agrees(r, f, shown) && (f == PmuEnable || Enabled(r)) ==> r.configData)
  {
    if steps == [] {
    } else {
      CoveredInEveryRun(s, steps[..|steps| - 1], f, shown);
      StepCovers(Run(s, steps[..|steps| - 1], shown), steps[|steps| - 1], f, shown);
    }
  }

  /** The limits: charger power, and voltage, current and power of a connector. */
  predicate Limit(f: Field) {
    f in {Basic(ChargerPower), Connector(false, Voltage), Connector(false, Current), Connector(false, Power),
          Connector(true, Voltage), Connector(true, Current), Connector(true, Power)}
  }

  lemma GuardedIsLimit(f: Field)
    ensures Guarded(f) <==> Limit(f)
  {
  }

  /** What the message holds, field by field, and what it leaves: a field is sent if it is flagged,
      set if it is a limit, and in a part of the message that is built; flags of sent fields and of
      built parts come down. */
  lemma SendOutcome(s: Sync, f: Field, shown: (Field, Value) -> Value)
    ensures var r, on, g := Send(s, shown), s.mqtt[PmuEnable] == Number(1.0), s.groups;
            var built := match f
              case PmuEnable => true
              case Local(_) => false
              case Basic(_) => on
              case Version(_) => on && VersionInfo in g
              case Connector(second, _) =>
                on && Connectors in g && (if second then Connector2 in g else Connector1 in g);
            && (!s.configData ==> r == s)
            && (s.configData ==>
                 && !r.configData && r.mqtt == s.mqtt && r.ipc == s.ipc && r.exchanged == s.exchanged
                 && (if f in s.own && built && !(Limit(f) && s.mqtt[f] == Unset)
                     then f !in r.own && r.replica[f] == shown(f, s.mqtt[f])
                     else (f in r.own <==> f in s.own) && r.replica[f] == s.replica[f])
                 && (VersionInfo in r.groups <==> VersionInfo in g && !on)
                 && (Connectors in r.groups <==> Connectors in g && !on)
                 && (Connector1 in r.groups <==> Connector1 in g && !(on && Connectors in g))
                 && (Connector2 in r.groups <==> Connector2 in g && !(on && Connectors in g)))
  {
    GuardedIsLimit(f);
  }

  /** Convergence: whatever happened before, one copy and one send with reporting enabled leave
      every tracked field of the receiver equal to the configuration that arrived last. */
  lemma Converges(s: Sync, steps: seq<Step>, f: Field, shown: (Field, Value) -> Value)
    requires s.exchanged && Tracked(f) && Covered(s, f, shown)
    requires Run(s, steps, shown).ipc[PmuEnable] == Number(1.0)
    ensures var before := Run(s, steps, shown);
            var after := Send(Copy(before), shown);
            && after.mqtt == before.ipc
            && (after.replica[f] == shown(f, before.ipc[f]) || (Limit(f) && before.ipc[f] == Unset))
  {
    CoveredInEveryRun(s, steps, f, shown);
    var before := Run(s, steps, shown);
    assert Covered(before, f, shown);
    CopyCovers(before, f, shown);
    SendCovers(Copy(before), f, shown);
    assert Agrees(Send(Copy(before), shown), f, shown);
  }

  /** The state app_main starts from: every flag is up and a message is due. */
  ghost predicate AtBoot(s: Sync) {
    && (forall f: Field :: f in s.own)
    && (forall g: Group :: g in s.groups)
    && s.configData && !s.exchanged
  }

  /** Before the first message nothing can be lost, whatever arrives and is copied. */
  lemma {:induction false} BootWaits(s: Sync, steps: seq<Step>, shown: (Field, Value) -> Value)
    requires AtBoot(s)
    requires forall k :: 0 <= k < |steps| ==> steps[k].Arrive? || steps[k].CopyStep?
    ensures AtBoot(Run(s, steps, shown))
  {
    if steps == [] {
    } else {
      BootWaits(s, steps[..|steps| - 1], shown);
      assert GroupsOf({}) == {};
    }
  }

  lemma BootCovers(s: Sync, f: Field, shown: (Field, Value) -> Value)
    requires AtBoot(s) && Tracked(f)
    ensures Covered(Send(s, shown), f, shown) && !Send(s, shown).exchanged
  {
  }

  /** The field and pmuEnable are as they were copied last. */
  predicate Unchanged(s: Sync, f: Field) {
    s.ipc[f] == s.mqtt[f] && s.ipc[PmuEnable] == s.mqtt[PmuEnable]
  }

  /** While the response is awaited: arrivals and messages of any number, and copies that find
      this field and pmuEnable unchanged, whatever else they find. */
  predicate Still(s: Sync, steps: seq<Step>, f: Field, shown: (Field, Value) -> Value) {
    steps == [] ||
    (var front, last := steps[..|steps| - 1], steps[|steps| - 1];
     && Still(s, front, f, shown)
     && !last.Exchange?
     && (last.CopyStep? ==> Unchanged(Run(s, front, shown), f)))
  }

  lemma {:induction false} StillCovers(s: Sync, steps: seq<Step>, f: Field, shown: (Field, Value) -> Value)
    requires !s.exchanged && Tracked(f) && Covered(s, f, shown) && Still(s, steps, f, shown)
    ensures Covered(Run(s, steps, shown), f, shown) && !Run(s, steps, shown).exchanged
  {
    if steps == [] {
    } else {
      StillCovers(s, steps[..|steps| - 1], f, shown);
      WaitCovers(Run(s, steps[..|steps| - 1], shown), steps[|steps| - 1], f, shown);
    }
  }

  lemma WaitCovers(s: Sync, step: Step, f: Field, shown: (Field, Value) -> Value)
    requires !s.exchanged && Tracked(f) && Covered(s, f, shown)
    requires !step.Exchange? && (step.CopyStep? ==> Unchanged(s, f))
    ensures Covered(Next(s, step, shown), f, shown) && !Next(s, step, shown).exchanged
  {
    assert GroupsOf({}) == {};
    if step.SendStep? {
      SendCovers(s, f, shown);
    }
  }

  /** From boot, field by field: any arrivals and copies, the boot message, any wait in which no
      copy finds this field or pmuEnable changed, the response, and then any run keep a tracked
      field covered. */
  lemma CoveredFromBoot(s: Sync, before: seq<Step>, wait: seq<Step>, later: seq<Step>, f: Field,
                        shown: (Field, Value) -> Value)
    requires AtBoot(s) && Tracked(f)
    requires forall k :: 0 <= k < |before| ==> before[k].Arrive? || before[k].CopyStep?
    requires Still(Send(Run(s, before, shown), shown), wait, f, shown)
    ensures var waited := Run(Send(Run(s, before, shown), shown), wait, shown);
            var r := Run(Next(waited, Exchange, shown), later, shown);
            && (Agrees(r, f, shown) || Flagged(r, f))
            && (!Agrees(r, f, shown) && (f == PmuEnable || Enabled(r)) ==> r.configData)
  {
    var sent := Send(Run(s, before, shown), shown);
    BootWaits(s, before, shown);
    BootCovers(Run(s, before, shown), f, shown);
    StillCovers(sent, wait, f, shown);
    CoveredInEveryRun(Next(Run(sent, wait, shown), Exchange, shown), later, f, shown);
  }

  // ---------------------------------------------------------------- the wait for the response

  /** The boot message sends what it reaches: what is left flagged waits for pmuEnable, or was
      Unset and stands in no group. */
  lemma FlaggedAfterBootIff(s: Sync, f: Field, shown: (Field, Value) -> Value)
    requires AtBoot(s) && Tracked(f)
    ensures Flagged(Send(s, shown), f) <==>
            if Enabled(s) then f == Basic(ChargerPower) && s.mqtt[f] == Unset else f != PmuEnable
  {
  }

  /** Until the response nothing is flagged and nothing more is sent, whatever is copied. */
  lemma {:induction false} WaitIsIdle(s: Sync, steps: seq<Step>, shown: (Field, Value) -> Value)
    requires !s.exchanged && !s.configData && forall k :: 0 <= k < |steps| ==> !steps[k].Exchange?
    ensures var r := Run(s, steps, shown);
            !r.exchanged && !r.configData && r.own == s.own && r.groups == s.groups && r.replica == s.replica
  {
    if steps == [] {
    } else {
      WaitIsIdle(s, steps[..|steps| - 1], shown);
      assert GroupsOf({}) == {};
    }
  }

  /** The exact condition at the response: a field is covered from then on if and only if the
      receiver's value agrees, or pmuEnable is off and the boot message left the field flagged. */
  lemma CoveredAtResponseIff(s: Sync, wait: seq<Step>, f: Field, shown: (Field, Value) -> Value)
    requires AtBoot(s) && Tracked(f) && forall k :: 0 <= k < |wait| ==> !wait[k].Exchange?
    ensures var w := Run(Send(s, shown), wait, shown);
            Covered(Next(w, Exchange, shown), f, shown) <==>
            Agrees(w, f, shown) || (!Enabled(w) && Flagged(Send(s, shown), f))
  {
    WaitIsIdle(Send(s, shown), wait, shown);
    FlaggedAfterBootIff(s, f, shown);
  }

  /** No compared field differs from what was copied last. */
  ghost predicate Settled(s: Sync) {
    forall f: Field :: Compared(f) ==> s.ipc[f] == s.mqtt[f]
  }

  /** An arrival that changes no compared field. */
  ghost predicate Repeats(s: Sync, step: Step) {
    step.Arrive? ==> forall f: Field :: Compared(f) ==> step.ipc[f] == s.ipc[f]
  }

  lemma SettledStep(s: Sync, step: Step, shown: (Field, Value) -> Value)
    requires Settled(s) && !s.configData && Repeats(s, step)
    ensures var r := Next(s, step, shown);
            && Settled(r) && !r.configData && r.own == s.own && r.groups == s.groups && r.replica == s.replica
            && forall f: Field :: Compared(f) ==> r.ipc[f] == s.ipc[f] && r.mqtt[f] == s.mqtt[f]
  {
    assert Changed(s) == {} && GroupsOf({}) == {};
  }

  /** With no message due and no compared field changing, nothing is ever sent, flagged or not. */
  lemma {:induction false} SettledSendsNothing(s: Sync, steps: seq<Step>, shown: (Field, Value) -> Value)
    requires Settled(s) && !s.configData && forall k :: 0 <= k < |steps| ==> Repeats(s, steps[k])
    ensures var r := Run(s, steps, shown);
            && Settled(r) && !r.configData && r.own == s.own && r.groups == s.groups && r.replica == s.replica
            && forall f: Field :: Compared(f) ==> r.ipc[f] == s.ipc[f] && r.mqtt[f] == s.mqtt[f]
  {
    if steps == [] {
    } else {
      var front, last := steps[..|steps| - 1], steps[|steps| - 1];
      SettledSendsNothing(s, front, shown);
      assert Repeats(s, last);
      SettledStep(Run(s, front, shown), last, shown);
    }
  }

  /** What disagrees when the wait ends stays so in every run in which no compared field changes:
      a field whose flag came down with the boot message, and just as well one still flagged when
      pmuEnable is switched on by a copy during the wait. */
  lemma WaitDecidesIff(s: Sync, wait: seq<Step>, later: seq<Step>, f: Field, shown: (Field, Value) -> Value)
    requires AtBoot(s) && Tracked(f) && forall k :: 0 <= k < |wait| ==> !wait[k].Exchange?
    requires Settled(Run(Send(s, shown), wait, shown))
    requires forall k :: 0 <= k < |later| ==> Repeats(Run(Send(s, shown), wait, shown), later[k])
    ensures var w := Run(Send(s, shown), wait, shown);
            Agrees(Run(w, later, shown), f, shown) <==> Agrees(w, f, shown)
  {
    WaitIsIdle(Send(s, shown), wait, shown);
    SettledSendsNothing(Run(Send(s, shown), wait, shown), later, shown);
  }

  /** A field that is still flagged is covered again as soon as a copy finds any compared field
      changed; one whose flag is down is not (EarlyChangeIsLost). */
  lemma AnyChangeRecovers(s: Sync, f: Field, shown: (Field, Value) -> Value)
    requires s.exchanged && Tracked(f) && Flagged(s, f) && Changed(s) != {}
    ensures Covered(Copy(s), f, shown)
  {
  }

  // ---------------------------------------------------------------- what is not reported

  /** A connector-B server limit that changes is sent by the next message exactly if something
      raised the group of connector 2. */
  lemma ServerBSentIff(s: Sync, f: Field, shown: (Field, Value) -> Value)
    requires f == Connector(true, ServerPower) || f == Connector(true, ServerCurrent)
    requires s.exchanged && s.ipc[f] != s.mqtt[f] && s.ipc[PmuEnable] == Number(1.0)
    ensures var sent := Send(Copy(s), shown);
            if Connector2 in s.groups || exists g :: g in Changed(s) && Connector2 in Raised(g)
            then sent.replica[f] == shown(f, s.ipc[f])
            else sent.replica[f] == s.replica[f] && f in sent.own
  {
    assert f in Changed(s) && Connectors in Raised(f);
    RaisedIff(s, Connectors);
    RaisedIff(s, Connector2);
    ReachedIsSent(Copy(s), f, shown);
  }

  /** A flagged field that is not left out while Unset is sent exactly if it is reached. */
  lemma ReachedIsSent(s: Sync, f: Field, shown: (Field, Value) -> Value)
    requires s.configData && f in s.own && !Guarded(f)
    ensures var sent := Send(s, shown);
            if Reached(s, f) then sent.replica[f] == shown(f, s.mqtt[f])
            else sent.replica[f] == s.replica[f] && f in sent.own
  {
  }

  lemma RaisedIff(s: Sync, g: Group)
    requires s.exchanged
    ensures g in Copy(s).groups <==> g in s.groups || RaisesSome(s, g)
  {
  }

  /** No flag is up that could send the field, and none will be. */
  predicate Stuck(s: Sync, f: Field) {
    f !in s.own && s.ipc[f] == s.mqtt[f]
  }

  lemma StuckStays(s: Sync, step: Step, f: Field, shown: (Field, Value) -> Value)
    requires Stuck(s, f)
    requires step.Arrive? ==> step.ipc[f] == s.ipc[f]
    ensures var r := Next(s, step, shown);
            Stuck(r, f) && r.replica[f] == s.replica[f] && r.ipc[f] == s.ipc[f]
  {
  }

  /** A change copied while the boot message is unanswered is lost: unless the field itself
      changes again, every run ends with what the boot message said, and that is right exactly
      if the change did not matter. */
  lemma {:induction false} EarlyChangeIsLost(s: Sync, steps: seq<Step>, f: Field, shown: (Field, Value) -> Value)
    requires !s.exchanged && f !in s.own
    requires forall k :: 0 <= k < |steps| && steps[k].Arrive? ==> steps[k].ipc[f] == s.ipc[f]
    ensures var r := Run(Copy(s), steps, shown);
            && Stuck(r, f) && r.replica[f] == s.replica[f] && r.ipc[f] == s.ipc[f]
            && (Agrees(r, f, shown) <==>
                s.replica[f] == shown(f, s.ipc[f]) || (Guarded(f) && s.ipc[f] == Unset))
  {
    if steps == [] {
    } else {
      var front := steps[..|steps| - 1];
      EarlyChangeIsLost(s, front, f, shown);
      StuckStays(Run(Copy(s), front, shown), steps[|steps| - 1], f, shown);
    }
  }

  lemma UncomparedStep(s: Sync, step: Step, f: Field, shown: (Field, Value) -> Value)
    requires (f == Basic(Eeprom) || f == Basic(Rtc)) && f !in s.own
    ensures f !in Next(s, step, shown).own && Next(s, step, shown).replica[f] == s.replica[f]
  {
  }

  /** The EEPROM and RTC states are only ever sent once: after their first message no run
      reports a change. */
  lemma {:induction false} NeverComparedNeverSent(s: Sync, steps: seq<Step>, f: Field, shown: (Field, Value) -> Value)
    requires (f == Basic(Eeprom) || f == Basic(Rtc)) && f !in s.own
    ensures var r := Run(s, steps, shown);
            f !in r.own && r.replica[f] == s.replica[f]
  {
    if steps == [] {
    } else {
      var front := steps[..|steps| - 1];
      NeverComparedNeverSent(s, front, f, shown);
      UncomparedStep(Run(s, front, shown), steps[|steps| - 1], f, shown);
    }
  }
}
