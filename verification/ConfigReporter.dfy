/** check_config_data_changes and prepare_mqtt_send_config_data, proved against ConfigSync. */
module ConfigReporting {
  import opened ConfigSync

  /** The sections in which the comparison and the message list the fields. */
  datatype Block = PmuStatus | Settings | First | Second | Versions | Modes | Status | Locals

  function FieldsOf(block: Block): seq<Field> {
    match block
    case PmuStatus => [PmuEnable]
    case Settings => [Basic(AutoCharge), Basic(Brand), Basic(ChargerPower), Basic(ServerChargerPower)]
    case First => ConnectorFields(false)
    case Second => ConnectorFields(true)
    case Versions => [Version(Hmi), Version(Lcu), Version(Mcu), Version(Pmu)]
    case Modes => [Basic(DynamicPowerSharing), Basic(EnergyMeterSetting), Basic(ZeroMeterStartEnable),
                   Basic(OcppUrl), Basic(ConfigKeyValue), Basic(Tariff)]
    case Status => [Basic(Eeprom), Basic(Rtc)]
    case Locals => [Local(WifiSsid), Local(WifiPassword), Local(MqttBroker), Local(SerialNumber)]
  }

  function ConnectorFields(second: bool): seq<Field> {
    [Connector(second, CommController), Connector(second, Voltage), Connector(second, Current),
     Connector(second, Power), Connector(second, ServerPower), Connector(second, ServerCurrent)]
  }

  function BlockOf(f: Field): Block {
    match f
    case PmuEnable => PmuStatus
    case Basic(b) =>
      if b.AutoCharge? || b.Brand? || b.ChargerPower? || b.ServerChargerPower? then Settings
      else if b.Eeprom? || b.Rtc? then Status
      else Modes
    case Connector(second, _) => if second then Second else First
    case Version(_) => Versions
    case Local(_) => Locals
  }

  lemma Listed(f: Field)
    ensures f in FieldsOf(BlockOf(f))
  {
    match f
    case PmuEnable => assert FieldsOf(PmuStatus)[0] == f;
    case Basic(b) => BasicListed(b);
    case Connector(second, c) => ConnectorListed(second, c);
    case Version(v) =>
      assert f == FieldsOf(Versions)[match v case Hmi => 0 case Lcu => 1 case Mcu => 2 case Pmu => 3];
    case Local(l) =>
      assert f == FieldsOf(Locals)[match l case WifiSsid => 0 case WifiPassword => 1 case MqttBroker => 2
                                           case SerialNumber => 3];
  }

  lemma BasicListed(b: BasicField)
    ensures Basic(b) in FieldsOf(BlockOf(Basic(b)))
  {
    var fields := FieldsOf(BlockOf(Basic(b)));
    match b
    case AutoCharge | DynamicPowerSharing | Eeprom => assert fields[0] == Basic(b);
    case Brand | EnergyMeterSetting | Rtc => assert fields[1] == Basic(b);
    case ChargerPower | ZeroMeterStartEnable => assert fields[2] == Basic(b);
    case ServerChargerPower | OcppUrl => assert fields[3] == Basic(b);
    case ConfigKeyValue => assert fields[4] == Basic(b);
    case Tariff => assert fields[5] == Basic(b);
  }

  lemma ConnectorListed(second: bool, c: ConnectorField)
    ensures Connector(second, c) in ConnectorFields(second)
  {
    var fields := ConnectorFields(second);
    match c
    case CommController => assert fields[0] == Connector(second, c);
    case Voltage => assert fields[1] == Connector(second, c);
    case Current => assert fields[2] == Connector(second, c);
    case Power => assert fields[3] == Connector(second, c);
    case ServerPower => assert fields[4] == Connector(second, c);
    case ServerCurrent => assert fields[5] == Connector(second, c);
  }

  lemma ListedOnly(f: Field, block: Block)
    requires f in FieldsOf(block)
    ensures BlockOf(f) == block
  {
    match block
    case PmuStatus =>
    case Settings =>
    case First =>
    case Second =>
    case Versions =>
    case Modes =>
    case Status =>
    case Locals =>
  }

  /** Every field is listed in its own section and in no other. */
  lemma ListedOnce(f: Field, block: Block)
    ensures f in FieldsOf(block) <==> BlockOf(f) == block
  {
    Listed(f);
    if f in FieldsOf(block) {
      ListedOnly(f, block);
    }
  }

  function Differing(s: Sync, block: Block): set<Field> {
    set f | f in s.ipc && BlockOf(f) == block && s.ipc[f] != s.mqtt[f]
  }

  lemma GroupsOfUnion(a: set<Field>, b: set<Field>)
    ensures GroupsOf(a + b) == GroupsOf(a) + GroupsOf(b)
  {
  }

  const SECTIONS: seq<Block> := [Locals, Settings, First, Second, Modes, Versions, PmuStatus]

  function SectionOf(block: Block): nat {
    match block
    case Locals => 0
    case Settings => 1
    case First => 2
    case Second => 3
    case Modes => 4
    case Versions => 5
    case PmuStatus => 6
    case Status => 7
  }

  /** What the sections before number i have found. */
  ghost function Seen(s: Sync, i: nat): set<Field> {
    set f | f in s.ipc && SectionOf(BlockOf(f)) < i && s.ipc[f] != s.mqtt[f]
  }

  lemma SeenGrows(s: Sync, i: nat)
    requires i < |SECTIONS|
    ensures Seen(s, i + 1) == Seen(s, i) + Differing(s, SECTIONS[i])
  {
    assert SectionOf(SECTIONS[i]) == i;
    assert forall b: Block :: SectionOf(b) == i ==> b == SECTIONS[i];
  }

  lemma SectionStep(s: Sync, now: Sync, i: nat)
    requires i < |SECTIONS|
    requires now.ipc == s.ipc && now.mqtt == s.mqtt
    requires now.own == s.own + Seen(s, i) && now.groups == s.groups + GroupsOf(Seen(s, i))
    ensures var found := Differing(now, SECTIONS[i]);
            && now.own + found == s.own + Seen(s, i + 1)
            && now.groups + GroupsOf(found) == s.groups + GroupsOf(Seen(s, i + 1))
            && (Seen(s, i + 1) != {} <==> Seen(s, i) != {} || found != {})
  {
    var found := Differing(now, SECTIONS[i]);
    assert found == Differing(s, SECTIONS[i]);
    SeenGrows(s, i);
    GroupsOfUnion(Seen(s, i), found);
  }

  lemma SectionsCoverChanges(s: Sync)
    ensures Seen(s, |SECTIONS|) == Changed(s)
  {
    assert forall f :: f in s.ipc ==> (SectionOf(BlockOf(f)) < 7 <==> Compared(f));
  }

  /** What sending changes. */
  datatype Report = Report(own: set<Field>, replica: Config)

  predicate IsReady(r: Report, mqtt: Config, f: Field) {
    f in r.own && !(Guarded(f) && mqtt[f] == Unset)
  }

  function EmitOne(r: Report, mqtt: Config, f: Field, shown: (Field, Value) -> Value): Report {
    if IsReady(r, mqtt, f) then Report(r.own - {f}, r.replica[f := shown(f, mqtt[f])]) else r
  }

  /** The fields one after the other, as the message is built. */
  function EmitEach(r: Report, mqtt: Config, fields: seq<Field>, shown: (Field, Value) -> Value): Report {
    if fields == [] then r
    else EmitOne(EmitEach(r, mqtt, fields[..|fields| - 1], shown), mqtt, fields[|fields| - 1], shown)
  }

  /** Each listed field is sent if it is flagged and set, however often it is listed. */
  lemma {:induction false} EmitEachSends(r: Report, mqtt: Config, fields: seq<Field>, f: Field,
                                         shown: (Field, Value) -> Value)
    ensures var e := EmitEach(r, mqtt, fields, shown);
            && (f in e.own <==> f in r.own && !(f in fields && IsReady(r, mqtt, f)))
            && e.replica[f] == if f in fields && IsReady(r, mqtt, f) then shown(f, mqtt[f]) else r.replica[f]
  {
    if fields == [] {
    } else {
      var front := fields[..|fields| - 1];
      EmitEachSends(r, mqtt, front, f, shown);
      assert fields == front + [fields[|fields| - 1]];
    }
  }

  /** From start to now, the flagged fields of these sections were sent and nothing else changed. */
  ghost predicate Progress(start: Report, now: Report, mqtt: Config, sent: set<Block>, shown: (Field, Value) -> Value) {
    forall f: Field {:trigger ProgressOf(start, now, mqtt, sent, f, shown)} ::
      ProgressOf(start, now, mqtt, sent, f, shown)
  }

  ghost predicate ProgressOf(start: Report, now: Report, mqtt: Config, sent: set<Block>, f: Field,
                             shown: (Field, Value) -> Value)
  {
    && (f in now.own <==> f in start.own && !(BlockOf(f) in sent && IsReady(start, mqtt, f)))
    && now.replica[f] ==
       if BlockOf(f) in sent && IsReady(start, mqtt, f) then shown(f, mqtt[f]) else start.replica[f]
  }

  lemma BlockProgress(start: Report, now: Report, mqtt: Config, sent: set<Block>, block: Block,
                      shown: (Field, Value) -> Value)
    requires Progress(start, now, mqtt, sent, shown)
    ensures Progress(start, EmitEach(now, mqtt, FieldsOf(block), shown), mqtt, sent + {block}, shown)
  {
    var fields := FieldsOf(block);
    var next := EmitEach(now, mqtt, fields, shown);
    forall f: Field ensures ProgressOf(start, next, mqtt, sent + {block}, f, shown) {
      assert ProgressOf(start, now, mqtt, sent, f, shown);
      ListedOnce(f, block);
      EmitEachSends(now, mqtt, fields, f, shown);
    }
  }

  /** The sections that the nested tests of the message let through. */
  function OpenBlocks(s: Sync): set<Block> {
    if Enabled(s) then EnabledBlocks(s.groups) else {PmuStatus}
  }

  function EnabledBlocks(groups: set<Group>): set<Block> {
    {PmuStatus} + {Settings} + ConnectorBlocks(groups) + If(groups, VersionInfo, Versions) + {Modes} + {Status}
  }

  function ConnectorBlocks(groups: set<Group>): set<Block> {
    if Connectors !in groups then {} else If(groups, Connector1, First) + If(groups, Connector2, Second)
  }

  function If(groups: set<Group>, group: Group, block: Block): set<Block> {
    if group in groups then {block} else {}
  }

  lemma OpenIsReached(s: Sync, f: Field)
    ensures BlockOf(f) in OpenBlocks(s) <==> Reached(s, f)
  {
  }

  /** Building the message section by section sends exactly the fields that are reached. */
  lemma OpenIsEmitted(s: Sync, now: Report, shown: (Field, Value) -> Value)
    requires Progress(Report(s.own, s.replica), now, s.mqtt, OpenBlocks(s), shown)
    ensures now == Report(Emitted(s, shown).own, Emitted(s, shown).replica)
  {
    var r, e := Report(s.own, s.replica), Emitted(s, shown);
    forall f: Field ensures (f in now.own <==> f in e.own) && now.replica[f] == e.replica[f] {
      OpenIsReached(s, f);
      assert ProgressOf(r, now, s.mqtt, OpenBlocks(s), f, shown);
    }
    assert now.own == e.own && now.replica == e.replica;
  }

  class Reporter {
    var chargerConfigIPC: Config
    var chargerConfigMQTT: Config
    var replica: Config
    var own: set<Field>
    var groups: set<Group>
    var configData: bool
    var configDataExchanged: bool
    var isConfigurationChanged: bool

    function State(): Sync
      reads this
    {
      Sync(chargerConfigIPC, chargerConfigMQTT, replica, own, groups, configData, configDataExchanged)
    }

    /** One comparison after the other; each raises its own flag and its groups. */
    method CompareFields(fields: seq<Field>)
      modifies `own, `groups, `isConfigurationChanged
      ensures var changed := Among(old(State()), fields);
              && own == old(own) + changed
              && groups == old(groups) + GroupsOf(changed)
              && isConfigurationChanged == (old(isConfigurationChanged) || changed != {})
    {
      ghost var s := State();
      for i := 0 to |fields|
        invariant own == s.own + Among(s, fields[..i])
        invariant groups == s.groups + GroupsOf(Among(s, fields[..i]))
        invariant isConfigurationChanged == (old(isConfigurationChanged) || Among(s, fields[..i]) != {})
      {
        var f := fields[i];
        AmongGrows(s, fields, i);
        if chargerConfigIPC[f] != chargerConfigMQTT[f] {
          isConfigurationChanged := true;
          own := own + {f};
          groups := groups + Raised(f);
        }
      }
      assert fields[..|fields|] == fields;
    }

    method CompareBlock(block: Block)
      modifies `own, `groups, `isConfigurationChanged
      ensures var changed := Differing(old(State()), block);
              && own == old(own) + changed
              && groups == old(groups) + GroupsOf(changed)
              && isConfigurationChanged == (old(isConfigurationChanged) || changed != {})
    {
      AmongIsDiffering(State(), block);
      CompareFields(FieldsOf(block));
    }

    method CheckConfigDataChanges()
      modifies `own, `groups, `isConfigurationChanged
      ensures own == old(own) + Changed(old(State()))
      ensures groups == old(groups) + GroupsOf(Changed(old(State())))
      ensures isConfigurationChanged == (old(isConfigurationChanged) || Changed(old(State())) != {})
      ensures forall f: Field ::
                f in own <==>
                (f in old(own)
                 || (chargerConfigIPC[f] != chargerConfigMQTT[f] && f != Basic(Eeprom) && f != Basic(Rtc)))
    {
      ghost var s := State();
      ChangedIs(s);
      for i := 0 to |SECTIONS|
        invariant own == s.own + Seen(s, i)
        invariant groups == s.groups + GroupsOf(Seen(s, i))
        invariant isConfigurationChanged == (old(isConfigurationChanged) || Seen(s, i) != {})
      {
        SectionStep(s, State(), i);
        CompareBlock(SECTIONS[i]);
      }
      SectionsCoverChanges(s);
    }

    method CopyIpcToMqtt()
      requires !isConfigurationChanged
      modifies this
      ensures State() == Copy(old(State())) && !isConfigurationChanged
    {
      if configDataExchanged {
        CheckConfigDataChanges();
      }
      chargerConfigMQTT := chargerConfigIPC;
      if isConfigurationChanged {
        isConfigurationChanged := false;
        configData := true;
      }
      assert GroupsOf({}) == {};
    }

    ghost function Sending(): Report
      reads `own, `replica
    {
      Report(own, replica)
    }

    /** The flagged fields of one section, in the order of the message. */
    method EmitFields(fields: seq<Field>, shown: (Field, Value) -> Value)
      modifies `own, `replica
      ensures Sending() == EmitEach(old(Sending()), chargerConfigMQTT, fields, shown)
    {
      for i := 0 to |fields|
        invariant Sending() == EmitEach(old(Sending()), chargerConfigMQTT, fields[..i], shown)
      {
        var f := fields[i];
        assert fields[..i + 1][..i] == fields[..i];
        if f in own && !(Guarded(f) && chargerConfigMQTT[f] == Unset) {
          replica := replica[f := shown(f, chargerConfigMQTT[f])];
          own := own - {f};
        }
      }
      assert fields[..|fields|] == fields;
    }

    /** One more section. */
    method EmitBlock(block: Block, shown: (Field, Value) -> Value, ghost start: Report, ghost sent: set<Block>)
      requires Progress(start, Sending(), chargerConfigMQTT, sent, shown)
      modifies `own, `replica
      ensures Progress(start, Sending(), chargerConfigMQTT, sent + {block}, shown)
    {
      BlockProgress(start, Sending(), chargerConfigMQTT, sent, block, shown);
      EmitFields(FieldsOf(block), shown);
    }

    /** A section that has its own group flag. */
    method EmitGroup(group: Group, block: Block, shown: (Field, Value) -> Value,
                     ghost start: Report, ghost sent: set<Block>)
      requires Progress(start, Sending(), chargerConfigMQTT, sent, shown)
      modifies `own, `replica, `groups
      ensures Progress(start, Sending(), chargerConfigMQTT, sent + If(old(groups), group, block), shown)
      ensures groups == old(groups) - {group}
    {
      assert sent + {} == sent;
      if group in groups {
        EmitBlock(block, shown, start, sent);
        groups := groups - {group};
      }
    }

    method EmitConnectors(shown: (Field, Value) -> Value, ghost start: Report, ghost sent: set<Block>)
      requires Progress(start, Sending(), chargerConfigMQTT, sent, shown)
      modifies `own, `replica, `groups
      ensures Progress(start, Sending(), chargerConfigMQTT, sent + ConnectorBlocks(old(groups)), shown)
      ensures groups == old(groups) - if Connectors in old(groups) then {Connectors, Connector1, Connector2} else {}
    {
      ghost var g := groups;
      assert sent + {} == sent;
      if Connectors in groups {
        EmitGroup(Connector1, First, shown, start, sent);
        EmitGroup(Connector2, Second, shown, start, sent + If(g, Connector1, First));
        assert sent + If(g, Connector1, First) + If(g, Connector2, Second) == sent + ConnectorBlocks(g);
        groups := groups - {Connectors};
      }
    }

    /** The part of the message under the test of pmuEnable. */
    method EmitEnabled(shown: (Field, Value) -> Value, ghost start: Report)
      requires Progress(start, Sending(), chargerConfigMQTT, {PmuStatus}, shown)
      modifies `own, `replica, `groups
      ensures Progress(start, Sending(), chargerConfigMQTT, EnabledBlocks(old(groups)), shown)
      ensures groups == LeftWhenEnabled(old(groups))
    {
      ghost var g := groups;
      ghost var sent := {PmuStatus} + {Settings};
      EmitBlock(Settings, shown, start, {PmuStatus});
      EmitConnectors(shown, start, sent);
      sent := sent + ConnectorBlocks(g);
      EmitGroup(VersionInfo, Versions, shown, start, sent);
      sent := sent + If(g, VersionInfo, Versions);
      EmitBlock(Modes, shown, start, sent);
      EmitBlock(Status, shown, start, sent + {Modes});
    }

    method PrepareMqttSendConfigData(shown: (Field, Value) -> Value)
      modifies `own, `replica, `groups
      ensures Progress(old(Sending()), Sending(), chargerConfigMQTT, OpenBlocks(old(State())), shown)
      ensures groups == GroupsLeft(old(State()))
    {
      ghost var start := Sending();
      EmitBlock(PmuStatus, shown, start, {});
      assert {} + {PmuStatus} == {PmuStatus};
      if chargerConfigMQTT[PmuEnable] == Number(1.0) {
        EmitEnabled(shown, start);
      }
    }

    method ConfigurationDataCase(ready: bool, shown: (Field, Value) -> Value)
      modifies this
      ensures State() == if ready then Send(old(State()), shown) else old(State())
    {
      if configData && ready {
        PrepareMqttSendConfigData(shown);
        OpenIsEmitted(old(State()), Sending(), shown);
        configData := false;
      }
    }
  }

  ghost function Among(s: Sync, fields: seq<Field>): set<Field> {
    set f | f in fields && s.ipc[f] != s.mqtt[f]
  }

  lemma AmongIsDiffering(s: Sync, block: Block)
    ensures Among(s, FieldsOf(block)) == Differing(s, block)
  {
    forall f: Field ensures f in FieldsOf(block) <==> BlockOf(f) == block {
      ListedOnce(f, block);
    }
  }

  lemma AmongGrows(s: Sync, fields: seq<Field>, i: nat)
    requires i < |fields|
    ensures var now, before := Among(s, fields[..i + 1]), Among(s, fields[..i]);
            if s.ipc[fields[i]] != s.mqtt[fields[i]]
            then now == before + {fields[i]} && GroupsOf(now) == GroupsOf(before) + Raised(fields[i])
            else now == before
  {
    assert fields[..i + 1] == fields[..i] + [fields[i]];
    if s.ipc[fields[i]] != s.mqtt[fields[i]] {
      assert Among(s, fields[..i + 1]) == Among(s, fields[..i]) + {fields[i]};
      GroupsOfUnion(Among(s, fields[..i]), {fields[i]});
      assert GroupsOf({fields[i]}) == Raised(fields[i]);
    }
  }
}
