/** What enters and leaves each file in every run, and why: retry drops one by one, and each
    file as a bounded queue. */
module DeviceQueues {
  import opened Wrappers
  import opened Text
  import opened Entries
  import opened StoreModel
  import opened StoreFacts
  import opened DeviceModel
  import opened DeviceFacts
  import opened DeviceRuns
  import opened DeviceTheorems

  // ---------------------------------------------------------------- retry drops

  /** Between the two devices exactly the line x of file f was dropped for retries: it was no
      critical entry, it left alone, the drop is on record, and its text is the one that was
      published four times in a row. */
  ghost predicate OneDrop(env: Env, d: Device, d': Device, f: nat, x: string)
    requires Shaped(d.store)
  {
    && f < |d.store.slots| && x in d.store.slots[f].lines
    && ActionOf(env, x).Some? && !Critical(ActionOf(env, x).value)
    && RemovedExactly(env, d.store.(critical := d'.store.critical), d'.store, f, x, Dropped)
    && d'.drops == d.drops + [Drop(Head(x), |d'.attempts|)]
    && EndsWith(Sent(d'.attempts), 4, Head(x))
  }

  /** A repeat of a stored entry drops its text exactly when it is the third of an unimportant
      message; otherwise the store only sees the critical counter. */
  lemma RepeatDrops(env: Env, d: Device, message: string, importance: int)
    requires Shaped(d.store) && 0 <= d.retry <= 2 && env.parse(message).Valid?
    ensures var d' := CountRepeat(env, d, message, importance);
            if d.lastSent == Some(message) && importance == 0 && d.retry == 2
            then d'.store == DropText(env, d.store, message)
            else d'.store == d.store.(critical := d'.store.critical)
  {
  }

  lemma LastDropEarned(d: Device, text: string)
    requires LogOk(d) && d.drops != [] && d.drops[|d.drops| - 1] == Drop(text, |d.attempts|)
    ensures EndsWith(Sent(d.attempts), 4, text)
  {
    assert DropEarned(d.attempts, d.drops[|d.drops| - 1]);
    assert d.attempts[..|d.attempts|] == d.attempts;
  }

  /** A dispatch leaves every line where it is, or drops exactly one, on record. */
  lemma DispatchDrops(env: Env, d: Device, online: bool, now: int, ok: bool) returns (dropped: bool, f: nat, x: string)
    requires DeviceOk(env, d) && d.lastCheck <= now < TICKS
    ensures var d' := Dispatch(env, d, online, now, ok);
            if dropped then OneDrop(env, d, d', f, x)
            else d'.store == d.store.(critical := d'.store.critical) && d'.drops == d.drops
  {
    dropped, f, x := false, 0, "";
    DispatchIs(env, d, online, now, ok);
    if Attempts(d, online, now) && ok {
      f := PickedHead(env, d);
      x := d.store.slots[f].lines[0];
      var a := AttemptOf(d, now, ok);
      var d1 := d.(lastCheck := now, attempts := d.attempts + [a]);
      assert AllIdentified(env, d.store.slots[f].lines) && Identified(env, x);
      HeadParses(env, x);
      RepeatCounts(env, d1, a.text, a.importance);
      RepeatDrops(env, d1, a.text, a.importance);
      dropped := d.lastSent == Some(a.text) && a.importance == 0 && d.retry == 2;
      if dropped {
        DropExact(env, d.store, f, x);
        DispatchKeepsLog(env, d, online, now, ok);
        LastDropEarned(Dispatch(env, d, online, now, ok), Head(x));
      }
    }
  }

  lemma SaveDropsNothing(env: Env, st: Store, f: nat, message: string, timestamp: string)
    requires Shaped(st) && f < |st.slots|
    ensures SameDropped(st, Save(env, st, f, message, timestamp))
  {
  }

  lemma CreateDropsNothing(env: Env, d: Device, kind: Kind, uuid: string, payload: string, timestamp: string)
    requires DeviceOk(env, d) && Legal(env, d, DoCreate(kind, uuid, payload, timestamp))
    ensures SameDropped(d.store, Create(env, d, kind, uuid, payload, timestamp).store)
  {
    if MayCreate(d, kind) && Route(kind).Some? {
      var st := Save(env, d.store, Route(kind).value, CallText(uuid, ActionName(kind), payload), timestamp);
      SaveDropsNothing(env, d.store, Route(kind).value, CallText(uuid, ActionName(kind), payload), timestamp);
      RecountAppendsNothing(st.(named := true), CONNECTORS);
    }
  }

  /** Only a dispatch drops, one line at a time. */
  lemma StepDrops(env: Env, d: Device, step: Step) returns (dropped: bool, f: nat, x: string)
    requires DeviceOk(env, d) && Legal(env, d, step)
    ensures dropped ==> step.DoDispatch? && OneDrop(env, d, Next(env, d, step), f, x)
    ensures !dropped ==> SameDropped(d.store, Next(env, d, step).store)
    ensures !dropped && !step.DoReboot? ==> Next(env, d, step).drops == d.drops
  {
    dropped, f, x := false, 0, "";
    match step {
      case DoAdvance(_) =>
      case DoDispatch(online, now, ok) => dropped, f, x := DispatchDrops(env, d, online, now, ok);
      case DoCreate(kind, uuid, payload, timestamp) => CreateDropsNothing(env, d, kind, uuid, payload, timestamp);
      case DoReceive(inbound) =>
        if inbound.Array? && Byte(|inbound.items|) == 3 {
          ResultEffect(env, d, inbound.items);
          if inbound.items[1].Str? {
            AnswerFaultSameDropped(env, d.store, inbound.items[1].text, ONLINE);
          }
        }
      case DoReboot =>
        MarksAlone(env, d.store, 0, false);
        RecountAppendsNothing(d.store.(critical := 0, named := false), REQUEST);
    }
  }

  lemma {:induction false} PrefixIsLegal(env: Env, d: Device, steps: seq<Step>, i: nat)
    requires i <= |steps| && LegalRun(env, d, steps)
    ensures LegalRun(env, d, steps[..i])
    decreases i
  {
    if i > 0 {
      PrefixIsLegal(env, Next(env, d, steps[0]), steps[1..], i - 1);
      assert steps[..i][1..] == steps[1..][..i - 1] && steps[..i][0] == steps[0];
    }
  }

  /** In every run, whatever line a file lost to retries was dropped by one dispatch of the run,
      alone, after four publishes of its text in a row, and that drop was put on record. */
  lemma {:induction false} DroppedInEveryRun(env: Env, d: Device, steps: seq<Step>, f: nat, x: string)
    returns (i: nat, before: Device)
    requires DeviceOk(env, d) && LegalRun(env, d, steps) && f < |d.store.slots|
    requires var r := Run(env, d, steps).store;
             f < |r.trails| && r.trails[f].dropped[x] > d.store.trails[f].dropped[x]
    ensures i < |steps| && LegalRun(env, d, steps[..i]) && before == Run(env, d, steps[..i])
    ensures Shaped(before.store) && steps[i].DoDispatch? && OneDrop(env, before, Next(env, before, steps[i]), f, x)
    decreases |steps|
  {
    assert steps != [];
    var d1 := Next(env, d, steps[0]);
    StepKeeps(env, d, steps[0]);
    var here := DroppedHere(env, d, steps[0], f, x);
    if here {
      i, before := 0, d;
      assert steps[..0] == [];
    } else {
      var j;
      j, before := DroppedInEveryRun(env, d1, steps[1..], f, x);
      i := j + 1;
      PrefixIsLegal(env, d, steps, i);
      RunPrefix(env, d, steps, i);
    }
  }

  lemma RunPrefix(env: Env, d: Device, steps: seq<Step>, i: nat)
    requires 0 < i <= |steps| && LegalRun(env, d, steps) && LegalRun(env, d, steps[..i])
    ensures LegalRun(env, Next(env, d, steps[0]), steps[1..][..i - 1])
    ensures Run(env, d, steps[..i]) == Run(env, Next(env, d, steps[0]), steps[1..][..i - 1])
  {
    assert steps[..i][1..] == steps[1..][..i - 1] && steps[..i][0] == steps[0];
  }

  /** A step drops this line from this file, or leaves that part of the history alone. */
  lemma DroppedHere(env: Env, d: Device, step: Step, f: nat, x: string) returns (here: bool)
    requires DeviceOk(env, d) && Legal(env, d, step) && f < |d.store.slots|
    ensures here ==> step.DoDispatch? && OneDrop(env, d, Next(env, d, step), f, x)
    ensures var st := Next(env, d, step).store;
            && Shaped(st) && |st.slots| == |d.store.slots|
            && (!here ==> st.trails[f].dropped[x] == d.store.trails[f].dropped[x])
  {
    var d1 := Next(env, d, step);
    var dropped, g, y := StepDrops(env, d, step);
    here := dropped && g == f && y == x;
    if dropped {
      assert RemovedIn(env, d.store.(critical := d1.store.critical), d1.store, g, y, Dropped, f);
    }
  }

  // ---------------------------------------------------------------- one step of a queue

  /** What a step does to one file: nothing, take out line k for some cause, put a line at the
      end, or take out line k for want of room and put a line at the end. */
  datatype Move = Stay | Leave(k: nat, cause: Cause) | Enter(line: string) | Evict(k: nat, line: string)

  function Without(lines: seq<string>, k: nat): seq<string>
    requires k < |lines|
  {
    lines[..k] + lines[k + 1..]
  }

  predicate Possible(lines: seq<string>, m: Move) {
    m.Leave? || m.Evict? ==> m.k < |lines|
  }

  function Moved(lines: seq<string>, m: Move): seq<string>
    requires Possible(lines, m)
  {
    match m
    case Stay => lines
    case Leave(k, _) => Without(lines, k)
    case Enter(line) => lines + [line]
    case Evict(k, line) => Without(lines, k) + [line]
  }

  /** The history says what the move was: an entry gone for that cause, appended, or evicted. */
  ghost predicate Recorded(before: Trail, after: Trail, lines: seq<string>, m: Move)
    requires Possible(lines, m)
  {
    match m
    case Stay => after == before
    case Leave(k, cause) => after == Charge(before, cause, multiset{lines[k]})
    case Enter(line) => after == before.(appended := before.appended + [line])
    case Evict(k, line) =>
      after == Charge(before, Evicted, multiset{lines[k]}).(appended := before.appended + [line])
  }

  /** A full file gives up the first of its oldest lines, and only a full one does. */
  ghost predicate Bounded(env: Env, f: nat, slot: Slot, m: Move) {
    && (m.Enter? ==> slot.count < Cap(f) || slot.lines == [])
    && (m.Evict? ==> slot.count >= Cap(f) && FirstMinimum(env, slot.lines, m.k))
  }

  function Written(kind: Kind, uuid: string, payload: string, timestamp: string): string {
    Line(CallText(uuid, ActionName(kind), payload), timestamp)
  }

  /** The received array names this UUID. */
  predicate Names(inbound: Inbound, uuid: Option<string>) {
    inbound.Array? && |inbound.items| > 1 && inbound.items[1].Str? && uuid == Some(inbound.items[1].text)
  }

  /** A line enters only as a created message, and for it alone one is evicted; a received
      message takes a line with its UUID out as answered, a dispatch takes one out as dropped. */
  predicate Causes(env: Env, step: Step, lines: seq<string>, m: Move)
    requires Possible(lines, m)
  {
    match m
    case Stay => true
    case Leave(k, cause) =>
      || (step.DoReceive? && cause == Answered && Names(step.inbound, UuidOf(env, lines[k])))
      || (step.DoDispatch? && cause == Dropped)
    case Enter(line) => step.DoCreate? && line == Written(step.kind, step.uuid, step.payload, step.timestamp)
    case Evict(_, line) => step.DoCreate? && line == Written(step.kind, step.uuid, step.payload, step.timestamp)
  }

  ghost predicate MoveOf(env: Env, f: nat, before: Store, after: Store, m: Move)
    requires Shaped(before) && f < |before.slots|
  {
    && Shaped(after) && |after.slots| == |before.slots|
    && Possible(before.slots[f].lines, m)
    && after.slots[f].lines == Moved(before.slots[f].lines, m)
    && Recorded(before.trails[f], after.trails[f], before.slots[f].lines, m)
    && Bounded(env, f, before.slots[f], m)
  }

  lemma ApartIsDistinct(env: Env, lines: seq<string>)
    requires ApartFile(env, lines)
    ensures Distinct(lines)
  {
    forall i, j | 0 <= i < j < |lines| ensures lines[i] != lines[j] {
      assert lines == lines[..j] + lines[j..];
      assert lines[..j][i] == lines[i] && lines[j..][0] == lines[j];
      assert multiset(lines)[lines[i]] == multiset(lines[..j])[lines[i]] + multiset(lines[j..])[lines[i]];
      assert lines[i] in lines[..j] && lines[j] in lines[j..];
    }
  }

  /** Losing exactly one line is a move of every file. */
  lemma RemovalMoves(env: Env, before: Store, after: Store, g: nat, x: string, cause: Cause, f: nat) returns (m: Move)
    requires Shaped(before) && StoreIdentified(env, before) && f < |before.slots|
    requires g < |before.slots| && x in before.slots[g].lines && cause != Evicted
    requires RemovedExactly(env, before, after, g, x, cause)
    ensures MoveOf(env, f, before, after, m)
    ensures m == Stay || (m.Leave? && m.cause == cause && before.slots[f].lines[m.k] == x)
  {
    m := Stay;
    assert RemovedIn(env, before, after, g, x, cause, f);
    if f == g {
      assert ApartFile(env, before.slots[f].lines);
      var k := PlaceOf(env, before.slots[f].lines, x);
      m := Leave(k, cause);
    }
  }

  lemma PlaceOf(env: Env, lines: seq<string>, x: string) returns (k: nat)
    requires ApartFile(env, lines) && x in lines
    ensures k < |lines| && lines[k] == x && Kept(env, ByLine(x), lines) == Without(lines, k)
  {
    ApartIsDistinct(env, lines);
    k :| 0 <= k < |lines| && lines[k] == x;
    KeptOnce(env, lines, k);
  }

  /** Eviction of distinct, stamped lines: which line goes, and that it is the one charged. */
  lemma EvictionRemovesLine(env: Env, lines: seq<string>) returns (k: nat)
    requires lines != [] && ApartFile(env, lines) && AllStamped(env, lines)
    ensures FirstMinimum(env, lines, k) && RemoveOldest(env, lines) == Without(lines, k)
    ensures Gone(env, ByLine(OldestEntry(env, lines)), lines) == multiset{lines[k]}
  {
    ApartIsDistinct(env, lines);
    k := OldestIsFirstMinimum(env, lines);
    KeptOnce(env, lines, k);
    GoneByLine(env, lines[k], lines);
  }

  lemma NothingToEvict(env: Env)
    ensures RemoveOldest(env, []) == [] && Gone(env, ByLine(OldestEntry(env, [])), []) == multiset{}
  {
  }

  lemma RoomMade(env: Env, st: Store, f: nat) returns (mid: Store, evicts: bool, k: nat)
    requires StoreOk(env, st) && StoreIdentified(env, st) && f < |st.slots|
    ensures mid == MakeRoom(env, st, f) && Shaped(mid) && |mid.slots| == |st.slots|
    ensures forall g :: 0 <= g < |st.slots| && g != f ==> mid.slots[g] == st.slots[g] && mid.trails[g] == st.trails[g]
    ensures evicts ==> st.slots[f].count >= Cap(f) && FirstMinimum(env, st.slots[f].lines, k)
    ensures !evicts ==> st.slots[f].count < Cap(f) || st.slots[f].lines == []
    ensures mid.slots[f].lines == if evicts then Without(st.slots[f].lines, k) else st.slots[f].lines
    ensures mid.trails[f] ==
            if evicts then Charge(st.trails[f], Evicted, multiset{st.slots[f].lines[k]}) else st.trails[f]
  {
    mid, evicts, k := MakeRoom(env, st, f), false, 0;
    assert SlotOk(env, f, st.slots[f], st.trails[f]) && ApartFile(env, st.slots[f].lines);
    if st.slots[f].count >= Cap(f) {
      if st.slots[f].lines == [] {
        NothingToEvict(env);
        ChargeNothing(st.trails[f], Evicted);
      } else {
        evicts := true;
        k := EvictionRemovesLine(env, st.slots[f].lines);
      }
    }
  }

  /** A line appended after room was made: one move. */
  lemma PushMoves(env: Env, st: Store, mid: Store, f: nat, evicts: bool, k: nat, line: string) returns (m: Move)
    requires Shaped(st) && f < |st.slots| && Shaped(mid) && |mid.slots| == |st.slots|
    requires evicts ==> st.slots[f].count >= Cap(f) && FirstMinimum(env, st.slots[f].lines, k)
    requires !evicts ==> st.slots[f].count < Cap(f) || st.slots[f].lines == []
    requires mid.slots[f].lines == if evicts then Without(st.slots[f].lines, k) else st.slots[f].lines
    requires mid.trails[f] ==
             if evicts then Charge(st.trails[f], Evicted, multiset{st.slots[f].lines[k]}) else st.trails[f]
    ensures MoveOf(env, f, st, Push(mid, f, line), m) && (m == Enter(line) || m == Evict(k, line))
  {
    m := if evicts then Evict(k, line) else Enter(line);
  }

  lemma PushElsewhere(env: Env, st: Store, mid: Store, g: nat, line: string, f: nat)
    requires Shaped(st) && f < |st.slots| && Shaped(mid) && |mid.slots| == |st.slots| && g < |st.slots| && f != g
    requires mid.slots[f] == st.slots[f] && mid.trails[f] == st.trails[f]
    ensures MoveOf(env, f, st, Push(mid, g, line), Stay)
  {
  }

  /** An append is a move of every file. */
  lemma SaveMoves(env: Env, st: Store, g: nat, message: string, timestamp: string, f: nat) returns (m: Move)
    requires StoreOk(env, st) && StoreIdentified(env, st) && f < |st.slots| && g < |st.slots|
    ensures MoveOf(env, f, st, Save(env, st, g, message, timestamp), m)
    ensures !m.Leave? && (m.Enter? || m.Evict? ==> m.line == Line(message, timestamp))
  {
    var mid, evicts, k := RoomMade(env, st, g);
    assert Save(env, st, g, message, timestamp) == Push(mid, g, Line(message, timestamp));
    if f == g {
      m := PushMoves(env, st, mid, g, evicts, k, Line(message, timestamp));
    } else {
      m := Stay;
      PushElsewhere(env, st, mid, g, Line(message, timestamp), f);
    }
  }

  lemma SameMoves(env: Env, before: Store, after: Store, f: nat)
    requires Shaped(before) && f < |before.slots| && Shaped(after)
    requires SameLines(before, after.(critical := before.critical))
    ensures MoveOf(env, f, before, after, Stay)
  {
  }

  /** Counting afterwards changes no move. */
  lemma CountedMoves(env: Env, before: Store, after: Store, counted: Store, f: nat, m: Move)
    requires Shaped(before) && f < |before.slots| && MoveOf(env, f, before, after, m)
    requires Shaped(counted) && SameLines(after, counted.(critical := after.critical))
    ensures MoveOf(env, f, before, counted, m)
  {
  }

  lemma CreateMoves(env: Env, d: Device, kind: Kind, uuid: string, payload: string, timestamp: string, f: nat)
    returns (m: Move)
    requires DeviceOk(env, d) && Legal(env, d, DoCreate(kind, uuid, payload, timestamp)) && f < |d.store.slots|
    ensures MoveOf(env, f, d.store, Create(env, d, kind, uuid, payload, timestamp).store, m)
    ensures !m.Leave? && (m.Enter? || m.Evict? ==> m.line == Written(kind, uuid, payload, timestamp))
  {
    m := Stay;
    if MayCreate(d, kind) && Route(kind).Some? {
      var g := Route(kind).value;
      var st := Save(env, d.store, g, CallText(uuid, ActionName(kind), payload), timestamp);
      m := SaveMoves(env, d.store, g, CallText(uuid, ActionName(kind), payload), timestamp, f);
      SaveKeepsEntries(env, d, g, kind, uuid, payload, timestamp);
      MarksAlone(env, st, st.critical, true);
      RecountKeepsEntries(env, st.(named := true), CONNECTORS);
      if kind == Configuration {
        CountedMoves(env, d.store, st, NameFiles(st), f, m);
      }
    }
  }

  lemma ReceiveMoves(env: Env, d: Device, inbound: Inbound, f: nat) returns (m: Move)
    requires DeviceOk(env, d) && f < |d.store.slots|
    ensures MoveOf(env, f, d.store, Validate(env, d, inbound).0.store, m)
    ensures m == Stay || (m.Leave? && m.cause == Answered && Names(inbound, UuidOf(env, d.store.slots[f].lines[m.k])))
  {
    var d' := Validate(env, d, inbound).0;
    m := Stay;
    if d' != d {
      var items := inbound.items;
      ResultEffect(env, d, items);
      var uuid := items[1].text;
      var g, line := LookupFound(env, d.store, uuid);
      assert AllFit(env, g, d.store.slots[g].lines) && Fits(env, g, line);
      if g == REQUEST {
        AnswerRequestExact(env, d.store, line, uuid);
      } else {
        AnswerFaultExact(env, d.store, g, line, uuid);
      }
      m := RemovalMoves(env, d.store, d'.store, g, line, Answered, f);
    }
  }

  lemma DispatchMoves(env: Env, d: Device, online: bool, now: int, ok: bool, f: nat) returns (m: Move)
    requires DeviceOk(env, d) && d.lastCheck <= now < TICKS && f < |d.store.slots|
    ensures MoveOf(env, f, d.store, Dispatch(env, d, online, now, ok).store, m)
    ensures m == Stay || (m.Leave? && m.cause == Dropped)
  {
    m := Stay;
    var d' := Dispatch(env, d, online, now, ok);
    var dropped, g, x := DispatchDrops(env, d, online, now, ok);
    if dropped {
      MarksAlone(env, d.store, d'.store.critical, d.store.named);
      m := RemovalMoves(env, d.store.(critical := d'.store.critical), d'.store, g, x, Dropped, f);
    }
  }

  /** Every step of the device is one move of every file: nothing, one line answered or dropped,
      one line appended, or the first of the oldest lines evicted from a full file for it. */
  lemma StepMoves(env: Env, d: Device, step: Step, f: nat) returns (m: Move)
    requires DeviceOk(env, d) && Legal(env, d, step) && f < |d.store.slots|
    ensures MoveOf(env, f, d.store, Next(env, d, step).store, m) && Causes(env, step, d.store.slots[f].lines, m)
  {
    m := Stay;
    match step {
      case DoAdvance(_) =>
      case DoDispatch(online, now, ok) => m := DispatchMoves(env, d, online, now, ok, f);
      case DoCreate(kind, uuid, payload, timestamp) => m := CreateMoves(env, d, kind, uuid, payload, timestamp, f);
      case DoReceive(inbound) => m := ReceiveMoves(env, d, inbound, f);
      case DoReboot =>
        var st := d.store.(critical := 0, named := false);
        MarksAlone(env, d.store, 0, false);
        RecountKeepsEntries(env, st, REQUEST);
        SameMoves(env, d.store, Reboot(d).store, f);
    }
  }

  // ---------------------------------------------------------------- whole runs

  lemma {:induction false} SubseqMembers(a: seq<string>, b: seq<string>)
    requires Subseq(a, b)
    ensures forall x :: x in a ==> x in b
    decreases |b|
  {
    if a != [] && b != [] {
      var a', b' := a[..|a| - 1], b[..|b| - 1];
      assert a == a' + [a[|a| - 1]];
      if Subseq(a, b') {
        SubseqMembers(a, b');
      } else {
        SubseqMembers(a', b');
      }
    }
  }

  lemma {:induction false} SubseqInOrder(env: Env, a: seq<string>, b: seq<string>)
    requires Subseq(a, b) && InOrder(env, b)
    ensures InOrder(env, a)
    decreases |b|
  {
    if a != [] && b != [] {
      var a', b', last := a[..|a| - 1], b[..|b| - 1], a[|a| - 1];
      PrefixInOrder(env, b', b);
      if Subseq(a, b') {
        SubseqInOrder(env, a, b');
      } else {
        assert a == a' + [last] && b == b' + [last];
        SubseqInOrder(env, a', b');
        SubseqMembers(a', b');
        OrderedUpToLast(env, b', last);
        LastInOrder(env, a', last);
      }
    }
  }

  /** No line has a later instant than the last one. */
  ghost predicate NoneLater(env: Env, lines: seq<string>, last: string) {
    forall x :: x in lines ==> Instant(env, x) <= Instant(env, last)
  }

  lemma OrderedUpToLast(env: Env, lines: seq<string>, last: string)
    requires InOrder(env, lines + [last])
    ensures NoneLater(env, lines, last)
  {
    var all := lines + [last];
    forall x | x in lines ensures Instant(env, x) <= Instant(env, last) {
      var j :| 0 <= j < |lines| && lines[j] == x;
      assert all[j] == x && all[|lines|] == last;
    }
  }

  lemma LastInOrder(env: Env, lines: seq<string>, last: string)
    requires InOrder(env, lines) && NoneLater(env, lines, last)
    ensures InOrder(env, lines + [last])
  {
    var all := lines + [last];
    forall i, j | 0 <= i < j < |all| ensures Instant(env, all[i]) <= Instant(env, all[j]) {
      assert all[i] == lines[i] && lines[i] in lines;
      assert all[j] == if j < |lines| then lines[j] else last;
    }
  }

  /** In every run, what eviction would take out of a file is exactly one line, the first of the
      smallest timestamp; and it is the head of the file if the clock never went back over the
      file's history. */
  lemma EvictionInEveryRun(env: Env, connectors: nat, steps: seq<Step>, f: nat) returns (k: nat)
    requires connectors <= MAX_CONNECTORS && LegalRun(env, Fresh(connectors), steps)
    requires var st := Run(env, Fresh(connectors), steps).store;
             f < |st.slots| && f < |st.trails| && st.slots[f].lines != []
    ensures var st := Run(env, Fresh(connectors), steps).store;
            var lines := st.slots[f].lines;
            && FirstMinimum(env, lines, k) && RemoveOldest(env, lines) == Without(lines, k)
            && (InOrder(env, st.trails[f].appended) ==> RemoveOldest(env, lines) == lines[1..])
  {
    FreshOk(env, connectors);
    RunKeeps(env, Fresh(connectors), steps);
    var st := Run(env, Fresh(connectors), steps).store;
    assert SlotOk(env, f, st.slots[f], st.trails[f]) && ApartFile(env, st.slots[f].lines);
    k := EvictionRemovesLine(env, st.slots[f].lines);
    if InOrder(env, st.trails[f].appended) {
      SubseqInOrder(env, st.slots[f].lines, st.trails[f].appended);
      ApartIsDistinct(env, st.slots[f].lines);
      EvictsHead(env, st.slots[f].lines);
    }
  }

  lemma {:induction false} HistoryGrows(env: Env, d: Device, steps: seq<Step>, f: nat)
    requires DeviceOk(env, d) && LegalRun(env, d, steps) && f < |d.store.slots|
    ensures var st := Run(env, d, steps).store;
            && Shaped(st) && |st.slots| == |d.store.slots|
            && d.store.trails[f].appended <= st.trails[f].appended
    decreases |steps|
  {
    if steps != [] {
      StepKeeps(env, d, steps[0]);
      var m := StepMoves(env, d, steps[0], f);
      HistoryGrows(env, Next(env, d, steps[0]), steps[1..], f);
    }
  }

  /** Step i of the run is this move of file f. */
  ghost predicate MovesAt(env: Env, d: Device, steps: seq<Step>, f: nat, i: nat, m: Move)
    requires i < |steps|
  {
    && LegalRun(env, d, steps[..i]) && LegalRun(env, d, steps[..i + 1])
    && var before, after := Run(env, d, steps[..i]).store, Run(env, d, steps[..i + 1]).store;
    && Shaped(before) && f < |before.slots|
    && MoveOf(env, f, before, after, m) && Causes(env, steps[i], before.slots[f].lines, m)
  }

  lemma MovesFirst(env: Env, d: Device, steps: seq<Step>, f: nat, m: Move)
    requires DeviceOk(env, d) && LegalRun(env, d, steps) && steps != [] && f < |d.store.slots|
    requires MoveOf(env, f, d.store, Next(env, d, steps[0]).store, m)
    requires Causes(env, steps[0], d.store.slots[f].lines, m)
    ensures MovesAt(env, d, steps, f, 0, m)
  {
    PrefixIsLegal(env, d, steps, 0);
    PrefixIsLegal(env, d, steps, 1);
    RunPrefix(env, d, steps, 1);
    assert steps[..0] == [] && steps[1..][..0] == [];
  }

  lemma MovesLater(env: Env, d: Device, steps: seq<Step>, f: nat, i: nat, m: Move)
    requires DeviceOk(env, d) && LegalRun(env, d, steps) && 0 < i < |steps|
    requires MovesAt(env, Next(env, d, steps[0]), steps[1..], f, i - 1, m)
    ensures MovesAt(env, d, steps, f, i, m)
  {
    PrefixIsLegal(env, d, steps, i);
    PrefixIsLegal(env, d, steps, i + 1);
    RunPrefix(env, d, steps, i);
    RunPrefix(env, d, steps, i + 1);
    assert steps[1..][..i + 1 - 1] == steps[1..][..i - 1 + 1] && steps[1..][i - 1] == steps[i];
  }

  /** The steps of the run are, one by one, these moves of file f. */
  ghost predicate MovesBy(env: Env, d: Device, steps: seq<Step>, f: nat, moves: seq<Move>) {
    |moves| == |steps| && forall i :: 0 <= i < |steps| ==> MovesAt(env, d, steps, f, i, moves[i])
  }

  /** A full file gives up its head. */
  predicate HeadsOnly(moves: seq<Move>) {
    forall i :: 0 <= i < |moves| && moves[i].Evict? ==> moves[i].k == 0
  }

  lemma LaterMoves(env: Env, d: Device, steps: seq<Step>, f: nat, moves: seq<Move>)
    requires DeviceOk(env, d) && LegalRun(env, d, steps) && steps != [] && moves != []
    requires MovesBy(env, Next(env, d, steps[0]), steps[1..], f, moves[1..])
    ensures |moves| == |steps| && forall i :: 0 < i < |steps| ==> MovesAt(env, d, steps, f, i, moves[i])
  {
    forall i | 0 < i < |steps| ensures MovesAt(env, d, steps, f, i, moves[i]) {
      assert moves[i] == moves[1..][i - 1];
      MovesLater(env, d, steps, f, i, moves[i]);
    }
  }

  /** In every run, whatever responses, retry drops, stale counters and restarts come in between,
      a file is a bounded queue: step i moves it by moves[i], so lines enter at its end, leave
      one at a time for a cause on record, and only a full file gives up one to another.  That
      one is the head whenever the file's timestamps never went back over the run. */
  lemma {:induction false} QueueInEveryRun(env: Env, d: Device, steps: seq<Step>, f: nat) returns (moves: seq<Move>)
    requires DeviceOk(env, d) && LegalRun(env, d, steps) && f < |d.store.slots|
    ensures MovesBy(env, d, steps, f, moves)
    ensures f < |Run(env, d, steps).store.trails|
    ensures InOrder(env, Run(env, d, steps).store.trails[f].appended) ==> HeadsOnly(moves)
    decreases |steps|
  {
    moves := [];
    HistoryGrows(env, d, steps, f);
    if steps != [] {
      var all := Run(env, d, steps).store.trails[f].appended;
      var d1 := RunFirst(env, d, steps);
      var m := StepMoves(env, d, steps[0], f);
      var rest := QueueInEveryRun(env, d1, steps[1..], f);
      moves := [m] + rest;
      assert moves[1..] == rest;
      MovesFirst(env, d, steps, f, m);
      LaterMoves(env, d, steps, f, moves);
      if InOrder(env, all) {
        HeadIsEvicted(env, d, f, m, all);
      }
    }
  }

  lemma HeadIsEvicted(env: Env, d: Device, f: nat, m: Move, all: seq<string>)
    requires StoreOk(env, d.store) && f < |d.store.slots| && Possible(d.store.slots[f].lines, m)
    requires Bounded(env, f, d.store.slots[f], m)
    requires d.store.trails[f].appended <= all && InOrder(env, all)
    ensures m.Evict? ==> m.k == 0
  {
    assert SlotOk(env, f, d.store.slots[f], d.store.trails[f]);
    PrefixInOrder(env, d.store.trails[f].appended, all);
    SubseqInOrder(env, d.store.slots[f].lines, d.store.trails[f].appended);
    if m.Evict? {
      MinimumIsHead(env, d.store.slots[f].lines, m.k);
    }
  }

  lemma PrefixInOrder(env: Env, a: seq<string>, b: seq<string>)
    requires a <= b && InOrder(env, b)
    ensures InOrder(env, a)
  {
    forall i, j | 0 <= i < j < |a| ensures Instant(env, a[i]) <= Instant(env, a[j]) {
      assert a[i] == b[i] && a[j] == b[j];
    }
  }

  lemma MinimumIsHead(env: Env, lines: seq<string>, k: nat)
    requires FirstMinimum(env, lines, k) && InOrder(env, lines)
    ensures k == 0
  {
    var first, kth := Instant(env, lines[0]), Instant(env, lines[k]);
    assert kth <= first;
  }

  // ---------------------------------------------------------------- repeated responses

  /** After an accepted response the file it came for has room: the next message for that file
      evicts nothing, whatever the counter was. */
  lemma AnswerMakesRoom(env: Env, d: Device, f: nat, line: string, uuid: string, stamped: bool, addressed: bool,
                        message: string, timestamp: string)
    requires DeviceOk(env, d) && f < Visible(d.store) && line in d.store.slots[f].lines
    requires UuidOf(env, line) == Some(uuid) && |uuid| <= 36
    requires ActionOf(env, line).Some? && (stamped || !Critical(ActionOf(env, line).value))
    ensures var st := Validate(env, d, Response(uuid, stamped, addressed)).0.store;
            && Shaped(st) && |st.slots| == |d.store.slots|
            && st.slots[f].count == |st.slots[f].lines| == |d.store.slots[f].lines| - 1
            && Save(env, st, f, message, timestamp).slots[f].lines ==
               st.slots[f].lines + [Line(message, timestamp)]
  {
    var st := Validate(env, d, Response(uuid, stamped, addressed)).0.store;
    ResponseOutcome(env, d, f, line, uuid, stamped, addressed);
    assert RemovedIn(env, d.store, st, f, line, Answered, f);
    assert ApartFile(env, d.store.slots[f].lines) && SlotOk(env, f, d.store.slots[f], d.store.trails[f]);
    var k := PlaceOf(env, d.store.slots[f].lines, line);
    SaveSlot(env, st, f, message, timestamp);
  }

  ghost predicate NotCreated(steps: seq<Step>, uuid: string) {
    forall i :: 0 <= i < |steps| && steps[i].DoCreate? ==> steps[i].uuid != uuid
  }

  lemma MovedMembers(lines: seq<string>, m: Move, x: string)
    requires Possible(lines, m) && x in Moved(lines, m)
    ensures x in lines || ((m.Enter? || m.Evict?) && x == m.line)
  {
  }

  /** No step brings a UUID back into the files, except creating a message with it. */
  lemma NoEntryStays(env: Env, d: Device, step: Step, uuid: string)
    requires DeviceOk(env, d) && Legal(env, d, step) && NoEntry(env, d.store, uuid) && NotCreated([step], uuid)
    ensures NoEntry(env, Next(env, d, step).store, uuid)
  {
    var st := Next(env, d, step).store;
    assert step.DoCreate? ==> [step][0].uuid != uuid;
    var m0 := StepMoves(env, d, step, REQUEST);
    forall f, x | 0 <= f < |st.slots| && x in st.slots[f].lines ensures UuidOf(env, x) != Some(uuid) {
      var m := StepMoves(env, d, step, f);
      MovedMembers(d.store.slots[f].lines, m, x);
      if step.DoCreate? {
        WrittenReads(env, d, step);
      }
    }
  }

  lemma WrittenReads(env: Env, d: Device, step: Step)
    requires step.DoCreate? && Legal(env, d, step)
    ensures UuidOf(env, Written(step.kind, step.uuid, step.payload, step.timestamp)) == Some(step.uuid)
  {
    var action := ActionName(step.kind);
    LineReads(env, CallText(step.uuid, action, step.payload), step.timestamp, step.uuid, action);
  }

  lemma {:induction false} NoEntryInRun(env: Env, d: Device, steps: seq<Step>, uuid: string)
    requires DeviceOk(env, d) && LegalRun(env, d, steps) && NoEntry(env, d.store, uuid) && NotCreated(steps, uuid)
    ensures NoEntry(env, Run(env, d, steps).store, uuid)
    decreases |steps|
  {
    if steps != [] {
      var d1 := RunFirst(env, d, steps);
      NoEntryStays(env, d, steps[0], uuid);
      NoEntryInRun(env, d1, steps[1..], uuid);
    }
  }

  /** However late a response is repeated, in whatever form: after it was accepted, and as long as
      no message with its UUID is created, it changes nothing in any run. */
  lemma RepeatedResponseIsIdle(env: Env, d: Device, f: nat, line: string, uuid: string, stamped: bool, addressed: bool,
                               steps: seq<Step>, again: seq<Item>)
    requires DeviceOk(env, d) && f < Visible(d.store) && line in d.store.slots[f].lines
    requires UuidOf(env, line) == Some(uuid) && |uuid| <= 36
    requires ActionOf(env, line).Some? && (stamped || !Critical(ActionOf(env, line).value))
    requires LegalRun(env, Validate(env, d, Response(uuid, stamped, addressed)).0, steps) && NotCreated(steps, uuid)
    requires |again| >= 3 && again[1] == Str(uuid)
    ensures var later := Run(env, Validate(env, d, Response(uuid, stamped, addressed)).0, steps);
            Shaped(later.store) && Validate(env, later, Array(again)).0 == later
  {
    var d1 := Validate(env, d, Response(uuid, stamped, addressed)).0;
    ResponseOutcome(env, d, f, line, uuid, stamped, addressed);
    AnsweredIsGone(env, d, f, line, uuid, d1.store);
    ReceiveKeeps(env, d, Response(uuid, stamped, addressed));
    NoEntryInRun(env, d1, steps, uuid);
    RunKeeps(env, d1, steps);
    UnknownResponse(env, Run(env, d1, steps), again);
  }
}
