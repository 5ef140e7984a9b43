/** The file code of the firmware: loops over lines, rewritten files, cached counters.
    Every method is proved equal to its operation in StoreModel. */
module Spiffs {
  import opened Wrappers
  import opened Text
  import opened Entries
  import opened StoreModel
  import opened StoreFacts

  /** A rewrite, and then the counter. */
  lemma RewriteIs(env: Env, st: Store, f: nat, rule: Rule, cause: Cause)
    requires Shaped(st) && f < |st.slots|
    ensures var purged := Purge(env, st, f, rule, cause, st.slots[f].count);
            var counted := Slot(purged.slots[f].lines, Byte(|Kept(env, rule, st.slots[f].lines)|));
            Rewrite(env, st, f, rule, cause) == purged.(slots := purged.slots[f := counted])
  {
  }

  class MessageStore {
    const env: Env
    var slots: seq<Slot>
    /** critical_retry_count */
    var critical: int
    /** fileNameConnector is allocated */
    var named: bool
    ghost var trails: seq<Trail>

    ghost function State(): Store
      reads this
    {
      Store(slots, trails, critical, named)
    }

    ghost predicate Valid()
      reads this
    {
      Shaped(State())
    }

    constructor (env: Env, connectors: nat)
      requires connectors <= MAX_CONNECTORS
      ensures Valid() && this.env == env && critical == 0 && !named
      ensures slots == seq(CONNECTORS + connectors, _ => Slot([], 0))
      ensures trails == seq(CONNECTORS + connectors, _ => Trail([], multiset{}, multiset{}, multiset{}))
    {
      this.env := env;
      slots := seq(CONNECTORS + connectors, _ => Slot([], 0));
      critical, named := 0, false;
      trails := seq(CONNECTORS + connectors, _ => Trail([], multiset{}, multiset{}, multiset{}));
    }

    /** The files that exist for the code: connector files only once they are named. */
    function SeenFiles(): (n: nat)
      requires Valid()
      reads this
      ensures n == Visible(State())
    {
      if named then |slots| else CONNECTORS
    }

    /** The temporary file replaces file f; its counter is left to the caller. */
    method Replace(f: nat, temp: seq<string>, ghost rule: Rule, ghost cause: Cause)
      requires Valid() && f < |slots| && temp == Kept(env, rule, slots[f].lines)
      modifies this`slots, this`trails
      ensures State() == Purge(env, old(State()), f, rule, cause, old(slots[f].count))
    {
      trails := trails[f := Charge(trails[f], cause, Gone(env, rule, slots[f].lines))];
      slots := slots[f := Slot(temp, slots[f].count)];
    }

    method SetCount(f: nat, count: int)
      requires f < |slots|
      modifies this`slots
      ensures slots == old(slots)[f := Slot(old(slots[f].lines), Byte(count))]
    {
      slots := slots[f := Slot(slots[f].lines, Byte(count))];
    }

    // -------------------------------------------------------------- eviction and append

    /** The first pass of remove_oldest_message. */
    method FindOldest(file: seq<string>) returns (oldestLine: string, oldestTimestamp: string)
      ensures (oldestLine, oldestTimestamp) == Oldest(env, file)
    {
      oldestLine, oldestTimestamp := "", SENTINEL;
      for i := 0 to |file|
        invariant (oldestLine, oldestTimestamp) == Oldest(env, file[..i])
      {
        assert file[..i + 1][..i] == file[..i];
        var line := file[i];
        var bar := Last(line, '|');
        if 0 <= bar {
          var timestamp := line[bar + 1..];
          if env.when(timestamp) < env.when(oldestTimestamp) {
            oldestTimestamp := timestamp;
            oldestLine := line[..bar];
          }
        }
      }
      assert file[..|file|] == file;
    }

    /** The second pass: every other line goes to the temporary file. */
    method CopyOthers(file: seq<string>, entry: string) returns (temp: seq<string>, count: int)
      ensures temp == Kept(env, ByLine(entry), file) && count == |temp|
    {
      temp, count := [], 0;
      for i := 0 to |file|
        invariant temp == Kept(env, ByLine(entry), file[..i]) && count == |temp|
      {
        KeptStep(env, ByLine(entry), file, i);
        if file[i] != entry {
          temp := temp + [file[i]];
          count := count + 1;
        }
      }
      assert file[..|file|] == file;
    }

    /** remove_oldest_message */
    method RemoveOldestMessage(f: nat) returns (count: int)
      requires Valid() && f < |slots|
      modifies this`slots, this`trails
      ensures State() == Purge(env, old(State()), f, ByLine(OldestEntry(env, old(slots[f].lines))), Evicted,
                               old(slots[f].count))
      ensures count == |Kept(env, ByLine(OldestEntry(env, old(slots[f].lines))), old(slots[f].lines))|
    {
      var oldestLine, oldestTimestamp := FindOldest(slots[f].lines);
      var oldestEntry := oldestLine + "|" + oldestTimestamp;
      assert oldestEntry == OldestEntry(env, slots[f].lines);
      var temp;
      temp, count := CopyOthers(slots[f].lines, oldestEntry);
      Replace(f, temp, ByLine(oldestEntry), Evicted);
    }

    /** save_payload_to_spiffs, before it takes the time */
    method MakeRoomIn(f: nat)
      requires Valid() && f < |slots|
      modifies this`slots, this`trails
      ensures State() == MakeRoom(env, old(State()), f)
    {
      if slots[f].count >= Cap(f) {
        RewriteIs(env, State(), f, ByLine(OldestEntry(env, slots[f].lines)), Evicted);
        var count := RemoveOldestMessage(f);
        SetCount(f, count);
      }
    }

    /** save_payload_to_spiffs */
    method SavePayload(f: nat, payload: string, timestamp: string)
      requires Valid() && f < |slots|
      modifies this`slots, this`trails
      ensures State() == Save(env, old(State()), f, payload, timestamp)
    {
      MakeRoomIn(f);
      AppendLine(f, payload + "|" + timestamp);
    }

    /** The line at the end of the file, and one more on its counter. */
    method AppendLine(f: nat, line: string)
      requires Valid() && f < |slots|
      modifies this`slots, this`trails
      ensures State() == Push(old(State()), f, line)
    {
      trails := trails[f := trails[f].(appended := trails[f].appended + [line])];
      slots := slots[f := Slot(slots[f].lines + [line], slots[f].count)];
      SetCount(f, slots[f].count + 1);
    }

    // -------------------------------------------------------------- delete by text

    /** delete_line_if_found */
    method DeleteLineIfFound(f: nat, target: string) returns (linesKept: int)
      requires Valid() && f < |slots|
      modifies this`slots, this`trails
      ensures State() == Purge(env, old(State()), f, ByText(target), Dropped, old(slots[f].count))
      ensures linesKept == |Kept(env, ByText(target), old(slots[f].lines))|
    {
      var file := slots[f].lines;
      ghost var rule := ByText(target);
      var temp: seq<string> := [];
      linesKept := 0;
      for i := 0 to |file|
        invariant State() == old(State())
        invariant temp == Kept(env, rule, file[..i]) && linesKept == |temp|
      {
        KeptStep(env, rule, file, i);
        if !Occurs(target, file[i]) {
          temp := temp + [file[i]];
          linesKept := linesKept + 1;
        }
      }
      assert file[..|file|] == file;
      Replace(f, temp, rule, Dropped);
    }

    /** One file of search_and_delete_message_from_any_file: the counter gets the running total. */
    method DeleteAndTotal(f: nat, target: string, total: int) returns (total': int)
      requires Valid() && f < |slots|
      modifies this`slots, this`trails
      ensures total' == total + |Kept(env, ByText(target), old(slots[f].lines))|
      ensures State() == Purge(env, old(State()), f, ByText(target), Dropped,
                               if f < CONNECTORS then Byte(total') else old(slots[f].count))
    {
      var remaining := DeleteLineIfFound(f, target);
      total' := total + remaining;
      if f < CONNECTORS {
        SetCount(f, total');
      }
    }

    /** search_and_delete_message_from_any_file */
    method SearchAndDelete(target: string) returns (totalRemaining: int)
      requires Valid()
      modifies this`slots, this`trails
      ensures Valid()
      ensures (State(), totalRemaining) == DropFrom(env, old(State()), target, REQUEST, 0)
    {
      totalRemaining := 0;
      for i := 0 to SeenFiles()
        invariant Valid() && |slots| == old(|slots|) && named == old(named)
        invariant DropFrom(env, old(State()), target, REQUEST, 0) == DropFrom(env, State(), target, i, totalRemaining)
      {
        ghost var next, sum := DropHere(env, State(), target, i, totalRemaining);
        if slots[i].lines != [] {
          totalRemaining := DeleteAndTotal(i, target, totalRemaining);
        }
      }
    }

    /** extract_uuid_from_json_response */
    method ExtractUuid(message: string) returns (uuid: Option<string>)
      requires Valid()
      modifies this
      ensures Valid()
      ensures (State(), uuid) == Extract(env, old(State()), message)
    {
      var json := env.parse(message);
      if critical >= 3 && json.Invalid? {
        critical := 0;
        var total := SearchAndDelete(message);
        return None;
      } else if critical >= 3 {
        critical := 0;
      }
      return JsonUuid(json);
    }

    // -------------------------------------------------------------- responses

    /** The rewrite that handle_response_message and delete_fault_file_entry_by_uuid share.
        While it reads, the critical counter is below 3, so extracting a UUID has no effect. */
    method DeleteEntryByUuid(f: nat, responseUuid: string) returns (entryCount: int, foundMatch: bool)
      requires Valid() && f < |slots| && critical < 3
      modifies this
      ensures Valid()
      ensures State() == Purge(env, old(State()), f, ByUuid(responseUuid), Answered, old(slots[f].count))
      ensures entryCount == |Kept(env, ByUuid(responseUuid), old(slots[f].lines))|
      ensures foundMatch <==> entryCount < |old(slots[f].lines)|
    {
      var file := slots[f].lines;
      ghost var rule := ByUuid(responseUuid);
      var temp: seq<string> := [];
      entryCount, foundMatch := 0, false;
      for i := 0 to |file|
        invariant Valid() && State() == old(State())
        invariant temp == Kept(env, rule, file[..i]) && entryCount == |temp|
        invariant foundMatch <==> |temp| < i
      {
        KeptStep(env, rule, file, i);
        var line := file[i];
        entryCount := entryCount + 1;
        var separator := First(line, '|');
        if separator < |line| {
          var requestUuid := ExtractUuid(line[..separator]);
          if requestUuid == Some(responseUuid) {
            foundMatch := true;
            entryCount := entryCount - 1;
            continue;
          }
        }
        temp := temp + [line];
      }
      assert file[..|file|] == file;
      Replace(f, temp, rule, Answered);
    }

    /** handle_response_message, and the counter its caller then sets. */
    method HandleResponse(responseUuid: string)
      requires Valid() && critical < 3
      modifies this
      ensures Valid()
      ensures State() == AnswerRequest(env, old(State()), responseUuid)
    {
      var count, found := DeleteEntryByUuid(REQUEST, responseUuid);
      SetCount(REQUEST, count);
    }

    /** handle_fault_response_message */
    method HandleFaultResponse(responseUuid: string)
      requires Valid() && critical < 3
      modifies this
      ensures Valid()
      ensures State() == AnswerFault(env, old(State()), responseUuid)
    {
      var foundMatch := false;
      for f := ONLINE to SeenFiles()
        invariant Valid() && critical == old(critical) && |slots| == old(|slots|) && named == old(named)
        invariant AnswerFault(env, old(State()), responseUuid) ==
                  if foundMatch then State() else AnswerFaultFrom(env, State(), responseUuid, f)
      {
        if slots[f].count != 0 && !foundMatch {
          ghost var before := State();
          var count;
          count, foundMatch := DeleteEntryByUuid(f, responseUuid);
          SetCount(f, count);
          assert State() == Rewrite(env, before, f, ByUuid(responseUuid), Answered);
        }
      }
    }

    // -------------------------------------------------------------- lookups

    /** search_uuid_in_file */
    method SearchUuidInFile(uuid: string, f: nat) returns (action: Option<string>)
      requires Valid() && f < |slots| && critical < 3
      modifies this
      ensures Valid() && State() == old(State())
      ensures action == SearchFile(env, slots[f].lines, uuid)
    {
      var file := slots[f].lines;
      for i := 0 to |file|
        invariant Valid() && State() == old(State())
        invariant SearchFile(env, file, uuid) == SearchFile(env, file[i..], uuid)
      {
        assert file[i..][1..] == file[i + 1..];
        var line := file[i];
        var separator := First(line, '|');
        if separator < |line| {
          var requestUuid := ExtractUuid(line[..separator]);
          if requestUuid == Some(uuid) {
            return ActionOf(env, line);
          }
        }
      }
      return None;
    }

    /** get_action_from_uuid */
    method GetActionFromUuid(uuid: string) returns (action: Option<string>)
      requires Valid() && critical < 3
      modifies this
      ensures Valid() && State() == old(State())
      ensures action == Lookup(env, State(), uuid)
    {
      for f := 0 to SeenFiles()
        invariant Valid() && State() == old(State())
        invariant Lookup(env, old(State()), uuid) == LookupFrom(env, State(), uuid, f)
      {
        if slots[f].count > 0 {
          action := SearchUuidInFile(uuid, f);
          if action.Some? { return; }
        }
      }
      action := None;
    }

    // -------------------------------------------------------------- counting

    /** count_file_entries */
    method CountFileEntries(f: nat) returns (count: int)
      requires f < |slots|
      ensures count == Byte(|slots[f].lines|)
    {
      count := 0;
      for i := 0 to |slots[f].lines|
        invariant count == i
      {
        count := count + 1;
      }
      count := Byte(count);
    }

    /** Counting at start-up (from file 0) and when the connector files are named (from 3). */
    method RecountFiles(from: nat)
      requires Valid() && from <= Visible(State())
      modifies this`slots
      ensures Valid()
      ensures State() == RecountFrom(old(State()), from)
    {
      for f := from to SeenFiles()
        invariant Valid() && |slots| == old(|slots|) && named == old(named)
        invariant RecountFrom(old(State()), from) == RecountFrom(State(), f)
      {
        var count := CountFileEntries(f);
        SetCount(f, count);
      }
    }

    /** initialize_file_names and the count of each connector file */
    method NameConnectorFiles()
      requires Valid()
      modifies this`slots, this`named
      ensures Valid()
      ensures State() == RecountFrom(old(State()).(named := true), CONNECTORS)
    {
      named := true;
      RecountFiles(CONNECTORS);
    }
  }
}
