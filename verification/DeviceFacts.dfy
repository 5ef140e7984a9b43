/** What every step of the device keeps. */
module DeviceFacts {
  import opened Wrappers
  import opened Text
  import opened Entries
  import opened StoreModel
  import opened StoreFacts
  import opened DeviceModel

  // ---------------------------------------------------------------- the stored entries

  /** Requests and faults live in their own files, and a critical action shows in the text. */
  ghost predicate Fits(env: Env, f: nat, line: string) {
    match ActionOf(env, line)
    case None => false
    case Some(action) =>
      && (f == REQUEST <==> action != FAULT)
      && Occurs(Quoted(action), Head(line))
  }

  ghost predicate AllFit(env: Env, f: nat, lines: seq<string>) {
    forall x :: x in lines ==> Fits(env, f, x)
  }

  /** No entry of a critical action was ever dropped for retries. */
  ghost predicate NoCriticalDropped(env: Env, trail: Trail) {
    forall x :: x in trail.dropped ==> ActionOf(env, x).Some? && !Critical(ActionOf(env, x).value)
  }

  ghost predicate EntriesOk(env: Env, st: Store) {
    && StoreOk(env, st)
    && StoreIdentified(env, st)
    && (forall f {:trigger AllFit(env, f, st.slots[f].lines)} ::
          0 <= f < |st.slots| ==> AllFit(env, f, st.slots[f].lines))
    && (forall f {:trigger NoCriticalDropped(env, st.trails[f])} ::
          0 <= f < |st.slots| ==> NoCriticalDropped(env, st.trails[f]))
  }

  /** Dropped entries stay what they were under any step that drops nothing. */
  ghost predicate SameDropped(before: Store, after: Store)
    requires Shaped(before)
  {
    && Shaped(after) && |after.slots| == |before.slots|
    && forall f :: 0 <= f < |before.slots| ==> after.trails[f].dropped == before.trails[f].dropped
  }

  lemma ShrinkKeepsEntries(env: Env, before: Store, after: Store)
    requires EntriesOk(env, before) && StoreOk(env, after) && Shrinks(before, after) && SameDropped(before, after)
    ensures EntriesOk(env, after)
  {
    ShrinkKeepsIdentified(env, before, after);
    forall f | 0 <= f < |after.slots|
      ensures AllFit(env, f, after.slots[f].lines) && NoCriticalDropped(env, after.trails[f])
    {
      assert Part(after.slots[f].lines, before.slots[f].lines);
      assert AllFit(env, f, before.slots[f].lines) && NoCriticalDropped(env, before.trails[f]);
      PartMembers(after.slots[f].lines, before.slots[f].lines);
    }
  }

  lemma MarksAlone(env: Env, st: Store, critical: int, named: bool)
    requires EntriesOk(env, st)
    ensures EntriesOk(env, st.(critical := critical, named := named))
  {
    var st' := st.(critical := critical, named := named);
    ShrinksItself(st);
    assert Shrinks(st, st');
    forall f | 0 <= f < |st.slots| ensures SlotOk(env, f, st'.slots[f], st'.trails[f]) {
      assert SlotOk(env, f, st.slots[f], st.trails[f]);
    }
    ShrinkKeepsEntries(env, st, st');
  }

  lemma RewriteSameDropped(env: Env, st: Store, f: nat, uuid: string)
    requires Shaped(st) && f < |st.slots|
    ensures SameDropped(st, Rewrite(env, st, f, ByUuid(uuid), Answered))
    ensures Rewrite(env, st, f, ByUuid(uuid), Answered).critical == st.critical
  {
  }

  lemma SameDroppedTransitive(a: Store, b: Store, c: Store)
    requires Shaped(a) && SameDropped(a, b) && SameDropped(b, c)
    ensures SameDropped(a, c)
  {
  }

  lemma {:induction false} AnswerFaultSameDropped(env: Env, st: Store, uuid: string, f: nat)
    requires Shaped(st)
    ensures SameDropped(st, AnswerFaultFrom(env, st, uuid, f))
    ensures AnswerFaultFrom(env, st, uuid, f).critical == st.critical
    ensures AnswerFaultFrom(env, st, uuid, f).named == st.named
    decreases Visible(st) - f
  {
    if f < Visible(st) {
      if st.slots[f].count == 0 {
        AnswerFaultSameDropped(env, st, uuid, f + 1);
      } else {
        var st' := Rewrite(env, st, f, ByUuid(uuid), Answered);
        RewriteSameDropped(env, st, f, uuid);
        AnswerFaultSameDropped(env, st', uuid, f + 1);
        SameDroppedTransitive(st, st', AnswerFaultFrom(env, st', uuid, f + 1));
      }
    }
  }

  lemma AnswersKeepEntries(env: Env, st: Store, uuid: string)
    requires EntriesOk(env, st)
    ensures EntriesOk(env, AnswerRequest(env, st, uuid)) && AnswerRequest(env, st, uuid).critical == st.critical
    ensures EntriesOk(env, AnswerFault(env, st, uuid)) && AnswerFault(env, st, uuid).critical == st.critical
    ensures AnswerFault(env, st, uuid).named == st.named
  {
    RewriteKeeps(env, st, REQUEST, ByUuid(uuid), Answered);
    ShrinkKeepsEntries(env, st, AnswerRequest(env, st, uuid));
    AnswerFaultKeeps(env, st, uuid, ONLINE);
    AnswerFaultSameDropped(env, st, uuid, ONLINE);
    ShrinkKeepsEntries(env, st, AnswerFault(env, st, uuid));
  }

  lemma RecountKeepsEntries(env: Env, st: Store, from: nat)
    requires EntriesOk(env, st)
    ensures EntriesOk(env, RecountFrom(st, from)) && RecountFrom(st, from).critical == st.critical
    ensures RecountFrom(st, from).named == st.named
    ensures SameLines(st, RecountFrom(st, from))
  {
    RecountKeeps(env, st, from);
    var st' := RecountFrom(st, from);
    forall f | 0 <= f < |st.slots| ensures Part(st'.slots[f].lines, st.slots[f].lines) {
      SubseqItself(st.slots[f].lines);
    }
    ShrinkKeepsEntries(env, st, st');
  }

  /** Dropping the text of a stored non-critical entry keeps the entries. */
  lemma DropKeepsEntries(env: Env, st: Store, f: nat, line: string)
    requires EntriesOk(env, st) && f < Visible(st) && line in st.slots[f].lines
    requires ActionOf(env, line).Some? && !Critical(ActionOf(env, line).value)
    ensures EntriesOk(env, DropText(env, st, Head(line))) && DropText(env, st, Head(line)).critical == st.critical
  {
    var st' := DropText(env, st, Head(line));
    DropKeeps(env, st, Head(line), REQUEST, 0);
    DropExact(env, st, f, line);
    ShrinkKeepsIdentified(env, st, st');
    forall g | 0 <= g < |st.slots|
      ensures AllFit(env, g, st'.slots[g].lines) && NoCriticalDropped(env, st'.trails[g])
    {
      assert RemovedIn(env, st, st', f, line, Dropped, g);
      assert Part(st'.slots[g].lines, st.slots[g].lines);
      assert AllFit(env, g, st.slots[g].lines) && NoCriticalDropped(env, st.trails[g]);
      PartMembers(st'.slots[g].lines, st.slots[g].lines);
    }
  }

  // ---------------------------------------------------------------- new entries

  lemma CallTextShows(uuid: string, action: string, payload: string)
    ensures Occurs(uuid, CallText(uuid, action, payload))
    ensures Occurs(Quoted(action), CallText(uuid, action, payload))
  {
    var text := CallText(uuid, action, payload);
    assert text == "[2,\"" + uuid + ("\"," + Quoted(action) + "," + payload + "]");
    OccursInside("[2,\"", uuid, "\"," + Quoted(action) + "," + payload + "]");
    assert text == ("[2," + Quoted(uuid) + ",") + Quoted(action) + ("," + payload + "]");
    OccursInside("[2," + Quoted(uuid) + ",", Quoted(action), "," + payload + "]");
  }

  /** Faults and only faults go to other files than the request file. */
  lemma RoutedApart(kind: Kind, f: nat)
    requires Route(kind) == Some(f)
    ensures f == REQUEST <==> ActionName(kind) != FAULT
  {
    assert |CONFIG| == 17 && |SESSION| == 15 && |FAULT| == 16 && |CHARGER_PERIODIC| == 19 && |PCM_PERIODIC| == 15;
  }

  /** A written line is read back with what its message parses to. */
  lemma LineReads(env: Env, text: string, timestamp: string, uuid: string, action: string)
    requires '|' !in text && '|' !in timestamp && env.parse(text) == Valid(Some(uuid), Some(action))
    ensures var line := Line(text, timestamp);
            && Head(line) == text && UuidOf(env, line) == Some(uuid) && ActionOf(env, line) == Some(action)
            && Occurs(text, line)
  {
    LineParts(text, timestamp);
    assert Line(text, timestamp) == "" + text + ("|" + timestamp);
    OccursInside("", text, "|" + timestamp);
  }

  lemma ShownIsIdentified(env: Env, line: string, uuid: string, action: string)
    requires UuidOf(env, line) == Some(uuid) && ActionOf(env, line) == Some(action) && uuid != ""
    requires Occurs(uuid, Head(line)) && Occurs(Head(line), line)
    ensures Identified(env, line)
  {
  }

  lemma ShownFits(env: Env, f: nat, line: string, action: string)
    requires ActionOf(env, line) == Some(action) && (f == REQUEST <==> action != FAULT)
    requires Occurs(Quoted(action), Head(line))
    ensures Fits(env, f, line)
  {
  }

  /** A line that the device writes is identified and fits its file. */
  lemma NewLine(env: Env, kind: Kind, uuid: string, payload: string, timestamp: string, f: nat)
    requires var text := CallText(uuid, ActionName(kind), payload);
             && '|' !in text && '|' !in timestamp && uuid != ""
             && env.parse(text) == Valid(Some(uuid), Some(ActionName(kind)))
             && Route(kind) == Some(f)
    ensures var line := Line(CallText(uuid, ActionName(kind), payload), timestamp);
            && Head(line) == CallText(uuid, ActionName(kind), payload)
            && UuidOf(env, line) == Some(uuid) && ActionOf(env, line) == Some(ActionName(kind))
            && Identified(env, line) && Fits(env, f, line)
  {
    var action := ActionName(kind);
    RoutedApart(kind, f);
    CallTextShows(uuid, action, payload);
    TextIsIdentified(env, CallText(uuid, action, payload), timestamp, uuid, action, f);
  }

  lemma TextIsIdentified(env: Env, text: string, timestamp: string, uuid: string, action: string, f: nat)
    requires '|' !in text && '|' !in timestamp && uuid != "" && env.parse(text) == Valid(Some(uuid), Some(action))
    requires Occurs(uuid, text) && Occurs(Quoted(action), text) && (f == REQUEST <==> action != FAULT)
    ensures var line := Line(text, timestamp);
            && Head(line) == text && UuidOf(env, line) == Some(uuid) && ActionOf(env, line) == Some(action)
            && Identified(env, line) && Fits(env, f, line)
  {
    var line := Line(text, timestamp);
    LineReads(env, text, timestamp, uuid, action);
    ShownIsIdentified(env, line, uuid, action);
    ShownFits(env, f, line, action);
  }

  /** The new line clashes with no stored one, either way. */
  ghost predicate Strange(env: Env, line: string, lines: seq<string>) {
    forall x :: x in lines ==> !Clash(env, x, line) && !Clash(env, line, x) && x != line
  }

  lemma PushApart(env: Env, lines: seq<string>, line: string)
    requires ApartFile(env, lines) && AllIdentified(env, lines) && Identified(env, line) && Strange(env, line, lines)
    ensures ApartFile(env, lines + [line]) && AllIdentified(env, lines + [line])
  {
    var all := lines + [line];
    assert line !in lines;
    assert multiset(all) == multiset(lines) + multiset{line};
    forall x | x in all ensures multiset(all)[x] == 1 && Identified(env, x) {
      assert x in lines || x == line;
    }
    forall x, y | x in all && y in all && x != y ensures !Clash(env, x, y) {
      assert (x in lines || x == line) && (y in lines || y == line);
    }
  }

  lemma PushApartFiles(env: Env, a: seq<string>, b: seq<string>, line: string)
    requires ApartFiles(env, a, b) && ApartFiles(env, b, a) && Strange(env, line, b)
    ensures ApartFiles(env, a + [line], b) && ApartFiles(env, b, a + [line])
  {
  }

  lemma PushKeepsEntries(env: Env, st: Store, f: nat, line: string)
    requires EntriesOk(env, st) && f < |st.slots| && st.slots[f].count < Cap(f) && Stamped(env, line)
    requires Identified(env, line) && Fits(env, f, line)
    requires forall g {:trigger Strange(env, line, st.slots[g].lines)} ::
               0 <= g < |st.slots| ==> Strange(env, line, st.slots[g].lines)
    ensures EntriesOk(env, Push(st, f, line))
  {
    var st' := Push(st, f, line);
    PushKeeps(env, st, f, line);
    forall g | 0 <= g < |st'.slots|
      ensures ApartFile(env, st'.slots[g].lines) && AllIdentified(env, st'.slots[g].lines)
      ensures AllFit(env, g, st'.slots[g].lines) && NoCriticalDropped(env, st'.trails[g])
    {
      assert ApartFile(env, st.slots[g].lines) && AllIdentified(env, st.slots[g].lines);
      assert AllFit(env, g, st.slots[g].lines) && NoCriticalDropped(env, st.trails[g]);
      if g == f {
        assert Strange(env, line, st.slots[g].lines);
        PushApart(env, st.slots[g].lines, line);
      }
    }
    forall g, h | 0 <= g < |st'.slots| && 0 <= h < |st'.slots| && g != h
      ensures ApartFiles(env, st'.slots[g].lines, st'.slots[h].lines)
    {
      assert ApartFiles(env, st.slots[g].lines, st.slots[h].lines);
      assert ApartFiles(env, st.slots[h].lines, st.slots[g].lines);
      assert Strange(env, line, st.slots[g].lines) && Strange(env, line, st.slots[h].lines);
      if g == f {
        PushApartFiles(env, st.slots[g].lines, st.slots[h].lines, line);
      } else if h == f {
        PushApartFiles(env, st.slots[h].lines, st.slots[g].lines, line);
      }
    }
  }

  lemma MakeRoomKeepsEntries(env: Env, st: Store, f: nat)
    requires EntriesOk(env, st) && f < |st.slots|
    ensures EntriesOk(env, MakeRoom(env, st, f)) && Shrinks(st, MakeRoom(env, st, f))
    ensures MakeRoom(env, st, f).slots[f].count < Cap(f) && MakeRoom(env, st, f).critical == st.critical
  {
    MakeRoomKeeps(env, st, f);
    ShrinkKeepsEntries(env, st, MakeRoom(env, st, f));
  }

  lemma StillStrange(env: Env, d: Device, uuid: string, line: string, st: Store, g: nat)
    requires Unused(env, d, uuid, line) && Shrinks(d.store, st) && g < |st.slots|
    requires UuidOf(env, line) == Some(uuid) && Occurs(uuid, line)
    ensures Strange(env, line, st.slots[g].lines)
  {
    assert Part(st.slots[g].lines, d.store.slots[g].lines);
    PartMembers(st.slots[g].lines, d.store.slots[g].lines);
  }

  lemma SaveKeepsEntries(env: Env, d: Device, f: nat, kind: Kind, uuid: string, payload: string, timestamp: string)
    requires EntriesOk(env, d.store) && Legal(env, d, DoCreate(kind, uuid, payload, timestamp))
    requires Route(kind) == Some(f)
    ensures var st' := Save(env, d.store, f, CallText(uuid, ActionName(kind), payload), timestamp);
            EntriesOk(env, st') && st'.critical == d.store.critical
  {
    var text := CallText(uuid, ActionName(kind), payload);
    var line := Line(text, timestamp);
    NewLine(env, kind, uuid, payload, timestamp, f);
    LineParts(text, timestamp);
    OccursTransitive(uuid, Head(line), line);
    MakeRoomKeepsEntries(env, d.store, f);
    var st := MakeRoom(env, d.store, f);
    forall g | 0 <= g < |st.slots| ensures Strange(env, line, st.slots[g].lines) {
      StillStrange(env, d, uuid, line, st, g);
    }
    PushKeepsEntries(env, st, f, line);
  }
}
