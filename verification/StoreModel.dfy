/** The persistent message files and their cached entry counters, as values.
    File 0 is the request file, 1 and 2 the online and offline charger fault files,
    3.. one fault file per connector: the order of the search-and-delete path table. */
module StoreModel {
  import opened Wrappers
  import opened Text
  import opened Entries

  const REQUEST: nat := 0
  const ONLINE: nat := 1
  const OFFLINE: nat := 2
  const CONNECTORS: nat := 3
  const MAX_CONNECTORS: nat := 3

  /** MAX_QUEUE_SIZE and MAX_QUEUE_SIZE_Fault. */
  function Cap(f: nat): nat {
    if f == REQUEST then 100 else 50
  }

  /** The counters are uint8_t. */
  function Byte(x: int): int {
    x % 256
  }

  datatype Slot = Slot(lines: seq<string>, count: int)

  /** Everything ever appended to a file, and everything that left it, by cause. */
  datatype Trail = Trail(appended: seq<string>,
                         answered: multiset<string>, evicted: multiset<string>, dropped: multiset<string>)

  datatype Cause = Answered | Evicted | Dropped

  /** named: the table of connector files exists.  Until it does, nothing looks into them. */
  datatype Store = Store(slots: seq<Slot>, trails: seq<Trail>, critical: int, named: bool)

  function Charge(trail: Trail, cause: Cause, gone: multiset<string>): Trail {
    match cause
    case Answered => trail.(answered := trail.answered + gone)
    case Evicted => trail.(evicted := trail.evicted + gone)
    case Dropped => trail.(dropped := trail.dropped + gone)
  }

  predicate Shaped(st: Store) {
    CONNECTORS <= |st.slots| <= CONNECTORS + MAX_CONNECTORS && |st.trails| == |st.slots|
  }

  /** The files before this number are looked into. */
  function Visible(st: Store): nat {
    if st.named || |st.slots| < CONNECTORS then |st.slots| else CONNECTORS
  }

  // ---------------------------------------------------------------- operations

  /** A file is rewritten without the lines a rule hits, and its counter set. */
  function Purge(env: Env, st: Store, f: nat, rule: Rule, cause: Cause, count: int): Store
    requires Shaped(st) && f < |st.slots|
  {
    var lines := st.slots[f].lines;
    st.(slots := st.slots[f := Slot(Kept(env, rule, lines), count)],
        trails := st.trails[f := Charge(st.trails[f], cause, Gone(env, rule, lines))])
  }

  /** A rewrite after which the counter is the number of lines written back. */
  function Rewrite(env: Env, st: Store, f: nat, rule: Rule, cause: Cause): Store
    requires Shaped(st) && f < |st.slots|
  {
    Purge(env, st, f, rule, cause, Byte(|Kept(env, rule, st.slots[f].lines)|))
  }

  function MakeRoom(env: Env, st: Store, f: nat): Store
    requires Shaped(st) && f < |st.slots|
  {
    if st.slots[f].count >= Cap(f)
    then Rewrite(env, st, f, ByLine(OldestEntry(env, st.slots[f].lines)), Evicted)
    else st
  }

  function Push(st: Store, f: nat, line: string): Store
    requires Shaped(st) && f < |st.slots|
  {
    st.(slots := st.slots[f := Slot(st.slots[f].lines + [line], Byte(st.slots[f].count + 1))],
        trails := st.trails[f := st.trails[f].(appended := st.trails[f].appended + [line])])
  }

  function Save(env: Env, st: Store, f: nat, message: string, timestamp: string): Store
    requires Shaped(st) && f < |st.slots|
  {
    Push(MakeRoom(env, st, f), f, Line(message, timestamp))
  }

  function AnswerRequest(env: Env, st: Store, uuid: string): Store
    requires Shaped(st)
  {
    Rewrite(env, st, REQUEST, ByUuid(uuid), Answered)
  }

  /** Fault files are rewritten in order, skipping those whose counter is 0, until one
      of them held the entry. */
  function AnswerFaultFrom(env: Env, st: Store, uuid: string, f: nat): Store
    requires Shaped(st)
    decreases Visible(st) - f
  {
    if f >= Visible(st) then st
    else if st.slots[f].count == 0 then AnswerFaultFrom(env, st, uuid, f + 1)
    else
      var st' := Rewrite(env, st, f, ByUuid(uuid), Answered);
      if |st'.slots[f].lines| < |st.slots[f].lines| then st'
      else AnswerFaultFrom(env, st', uuid, f + 1)
  }

  function AnswerFault(env: Env, st: Store, uuid: string): Store
    requires Shaped(st)
  {
    AnswerFaultFrom(env, st, uuid, ONLINE)
  }

  /** Delete by text from every non-empty file.  The counters of the first three files
      receive the running total; connector counters stay. */
  function DropFrom(env: Env, st: Store, target: string, f: nat, total: int): (Store, int)
    requires Shaped(st)
    decreases Visible(st) - f
  {
    if f >= Visible(st) then (st, total)
    else if st.slots[f].lines == [] then DropFrom(env, st, target, f + 1, total)
    else
      var total' := total + |Kept(env, ByText(target), st.slots[f].lines)|;
      var count := if f < CONNECTORS then Byte(total') else st.slots[f].count;
      DropFrom(env, Purge(env, st, f, ByText(target), Dropped, count), target, f + 1, total')
  }

  function DropText(env: Env, st: Store, target: string): Store
    requires Shaped(st)
  {
    DropFrom(env, st, target, REQUEST, 0).0
  }

  /** The UUID of a message.  At three critical repeats it also deletes an unparsable one. */
  function Extract(env: Env, st: Store, message: string): (Store, Option<string>)
    requires Shaped(st)
  {
    var json := env.parse(message);
    if st.critical >= 3 && json.Invalid? then (DropText(env, st.(critical := 0), message), None)
    else ((if st.critical >= 3 then st.(critical := 0) else st), JsonUuid(json))
  }

  /** The action of the first line with this UUID. */
  function SearchFile(env: Env, lines: seq<string>, uuid: string): Option<string> {
    if lines == [] then None
    else if UuidOf(env, lines[0]) == Some(uuid) then ActionOf(env, lines[0])
    else SearchFile(env, lines[1..], uuid)
  }

  /** The lookup skips files whose counter is 0. */
  function LookupFrom(env: Env, st: Store, uuid: string, f: nat): Option<string>
    decreases Visible(st) - f
  {
    if f >= Visible(st) then None
    else
      var found := if st.slots[f].count > 0 then SearchFile(env, st.slots[f].lines, uuid) else None;
      if found.Some? then found else LookupFrom(env, st, uuid, f + 1)
  }

  function Lookup(env: Env, st: Store, uuid: string): Option<string> {
    LookupFrom(env, st, uuid, REQUEST)
  }

  /** A lookup that trusts no counter: files f up to to. */
  function ScanFrom(env: Env, st: Store, uuid: string, f: nat, stop: nat): Option<string>
    requires stop <= |st.slots|
    decreases stop - f
  {
    if f >= stop then None
    else
      var found := SearchFile(env, st.slots[f].lines, uuid);
      if found.Some? then found else ScanFrom(env, st, uuid, f + 1, stop)
  }

  /** The plain scan of all files. */
  function Scan(env: Env, st: Store, uuid: string): Option<string> {
    ScanFrom(env, st, uuid, REQUEST, |st.slots|)
  }

  /** Counting a file's lines. */
  function Recount(st: Store, f: nat): Store
    requires Shaped(st) && f < |st.slots|
  {
    st.(slots := st.slots[f := Slot(st.slots[f].lines, Byte(|st.slots[f].lines|))])
  }

  function RecountFrom(st: Store, f: nat): Store
    requires Shaped(st)
    decreases Visible(st) - f
  {
    if f >= Visible(st) then st else RecountFrom(Recount(st, f), f + 1)
  }

  // ---------------------------------------------------------------- the invariant

  /** The counter is an upper bound of the lines, the cap holds, and every line that ever
      came in is accounted for exactly once. */
  ghost predicate SlotOk(env: Env, f: nat, slot: Slot, trail: Trail) {
    && |slot.lines| <= slot.count <= 255
    && |slot.lines| <= Cap(f)
    && AllStamped(env, slot.lines)
    && Subseq(slot.lines, trail.appended)
    && Balanced(slot.lines, trail)
  }

  ghost predicate AllStamped(env: Env, lines: seq<string>) {
    forall x :: x in lines ==> Stamped(env, x)
  }

  ghost predicate Balanced(lines: seq<string>, trail: Trail) {
    multiset(trail.appended) == multiset(lines) + trail.answered + trail.evicted + trail.dropped
  }

  ghost predicate StoreOk(env: Env, st: Store) {
    && Shaped(st)
    && forall f {:trigger SlotOk(env, f, st.slots[f], st.trails[f])} ::
         0 <= f < |st.slots| ==> SlotOk(env, f, st.slots[f], st.trails[f])
  }

  /** Some of the lines, in the same order. */
  ghost predicate Part(some: seq<string>, all: seq<string>) {
    Subseq(some, all) && multiset(some) <= multiset(all)
  }

  /** Each file of after holds some of the lines of before, in the same order. */
  ghost predicate Shrinks(before: Store, after: Store) {
    && |after.slots| == |before.slots|
    && forall f {:trigger Part(after.slots[f].lines, before.slots[f].lines)} ::
         0 <= f < |before.slots| ==> Part(after.slots[f].lines, before.slots[f].lines)
  }

  lemma ShrinksItself(st: Store)
    ensures Shrinks(st, st)
  {
    forall f | 0 <= f < |st.slots| ensures Part(st.slots[f].lines, st.slots[f].lines) {
      SubseqItself(st.slots[f].lines);
    }
  }

  lemma PartTransitive(a: seq<string>, b: seq<string>, c: seq<string>)
    requires Part(a, b) && Part(b, c)
    ensures Part(a, c)
  {
    SubseqTransitive(a, b, c);
  }

  lemma ShrinksTransitive(a: Store, b: Store, c: Store)
    requires Shrinks(a, b) && Shrinks(b, c)
    ensures Shrinks(a, c)
  {
    forall f | 0 <= f < |a.slots| ensures Part(c.slots[f].lines, a.slots[f].lines) {
      PartTransitive(c.slots[f].lines, b.slots[f].lines, a.slots[f].lines);
    }
  }

  lemma PurgeBalances(env: Env, rule: Rule, lines: seq<string>, trail: Trail, cause: Cause)
    requires Balanced(lines, trail)
    ensures Balanced(Kept(env, rule, lines), Charge(trail, cause, Gone(env, rule, lines)))
  {
    KeptAndGone(env, rule, lines);
  }

  lemma PurgeKeepsSlot(env: Env, f: nat, slot: Slot, trail: Trail, rule: Rule, cause: Cause, count: int)
    requires SlotOk(env, f, slot, trail)
    requires |Kept(env, rule, slot.lines)| <= count <= 255
    ensures SlotOk(env, f, Slot(Kept(env, rule, slot.lines), count), Charge(trail, cause, Gone(env, rule, slot.lines)))
  {
    var kept := Kept(env, rule, slot.lines);
    KeptInOrder(env, rule, slot.lines);
    SubseqTransitive(kept, slot.lines, trail.appended);
    PurgeBalances(env, rule, slot.lines, trail, cause);
    KeptMembers(env, rule, slot.lines);
  }

  lemma PurgeShrinks(env: Env, st: Store, f: nat, rule: Rule, cause: Cause, count: int)
    requires Shaped(st) && f < |st.slots|
    ensures Shrinks(st, Purge(env, st, f, rule, cause, count))
  {
    var st' := Purge(env, st, f, rule, cause, count);
    forall g | 0 <= g < |st.slots| ensures Part(st'.slots[g].lines, st.slots[g].lines) {
      if g == f {
        KeptInOrder(env, rule, st.slots[f].lines);
        KeptAndGone(env, rule, st.slots[f].lines);
      } else {
        SubseqItself(st.slots[g].lines);
      }
    }
  }

  /** Any rewrite keeps the invariant as long as the new counter covers the kept lines. */
  lemma PurgeKeeps(env: Env, st: Store, f: nat, rule: Rule, cause: Cause, count: int)
    requires StoreOk(env, st) && f < |st.slots|
    requires |Kept(env, rule, st.slots[f].lines)| <= count <= 255
    ensures StoreOk(env, Purge(env, st, f, rule, cause, count))
    ensures Shrinks(st, Purge(env, st, f, rule, cause, count))
  {
    assert SlotOk(env, f, st.slots[f], st.trails[f]);
    PurgeKeepsSlot(env, f, st.slots[f], st.trails[f], rule, cause, count);
    PurgeShrinks(env, st, f, rule, cause, count);
  }

  lemma RewriteKeeps(env: Env, st: Store, f: nat, rule: Rule, cause: Cause)
    requires StoreOk(env, st) && f < |st.slots|
    ensures StoreOk(env, Rewrite(env, st, f, rule, cause))
    ensures Shrinks(st, Rewrite(env, st, f, rule, cause))
    ensures Rewrite(env, st, f, rule, cause).slots[f].count == |Kept(env, rule, st.slots[f].lines)|
  {
    var kept := |Kept(env, rule, st.slots[f].lines)|;
    assert SlotOk(env, f, st.slots[f], st.trails[f]);
    assert Byte(kept) == kept;
    PurgeKeeps(env, st, f, rule, cause, kept);
  }

  lemma EvictedBelowCap(env: Env, f: nat, slot: Slot, trail: Trail)
    requires SlotOk(env, f, slot, trail)
    ensures |RemoveOldest(env, slot.lines)| < Cap(f)
  {
    if slot.lines != [] {
      var k := OldestIsFirstMinimum(env, slot.lines);
      EvictionShrinksIff(env, slot.lines);
    }
  }

  /** Making room leaves the counter and the file below the cap. */
  lemma MakeRoomKeeps(env: Env, st: Store, f: nat)
    requires StoreOk(env, st) && f < |st.slots|
    ensures var st' := MakeRoom(env, st, f);
            && StoreOk(env, st') && Shrinks(st, st')
            && st'.slots[f].count < Cap(f)
  {
    ShrinksItself(st);
    if st.slots[f].count >= Cap(f) {
      assert SlotOk(env, f, st.slots[f], st.trails[f]);
      EvictedBelowCap(env, f, st.slots[f], st.trails[f]);
      RewriteKeeps(env, st, f, ByLine(OldestEntry(env, st.slots[f].lines)), Evicted);
    }
  }

  lemma PushBalances(lines: seq<string>, trail: Trail, line: string)
    requires Balanced(lines, trail)
    ensures Balanced(lines + [line], trail.(appended := trail.appended + [line]))
  {
  }

  lemma PushStamped(env: Env, lines: seq<string>, line: string)
    requires AllStamped(env, lines) && Stamped(env, line)
    ensures AllStamped(env, lines + [line])
  {
  }

  lemma PushKeepsSlot(env: Env, f: nat, slot: Slot, trail: Trail, line: string)
    requires SlotOk(env, f, slot, trail) && slot.count < Cap(f) && Stamped(env, line)
    ensures SlotOk(env, f, Slot(slot.lines + [line], Byte(slot.count + 1)),
                   trail.(appended := trail.appended + [line]))
  {
    SubseqSnoc(slot.lines, trail.appended, line);
    PushBalances(slot.lines, trail, line);
    PushStamped(env, slot.lines, line);
  }

  lemma PushKeeps(env: Env, st: Store, f: nat, line: string)
    requires StoreOk(env, st) && f < |st.slots| && st.slots[f].count < Cap(f) && Stamped(env, line)
    ensures StoreOk(env, Push(st, f, line))
  {
    assert SlotOk(env, f, st.slots[f], st.trails[f]);
    PushKeepsSlot(env, f, st.slots[f], st.trails[f], line);
  }

  /** Appending keeps the invariant, whatever the message, under a clock that writes
      timestamps without a bar and before the sentinel. */
  lemma SaveKeeps(env: Env, st: Store, f: nat, message: string, timestamp: string)
    requires StoreOk(env, st) && f < |st.slots|
    requires '|' !in timestamp && env.when(timestamp) < env.when(SENTINEL)
    ensures StoreOk(env, Save(env, st, f, message, timestamp))
    ensures Save(env, st, f, message, timestamp).slots[f].count <= Cap(f)
  {
    MakeRoomKeeps(env, st, f);
    LineParts(message, timestamp);
    var st' := MakeRoom(env, st, f);
    assert SlotOk(env, f, st'.slots[f], st'.trails[f]);
    PushKeeps(env, st', f, Line(message, timestamp));
  }

  lemma {:induction false} AnswerFaultKeeps(env: Env, st: Store, uuid: string, f: nat)
    requires StoreOk(env, st)
    ensures StoreOk(env, AnswerFaultFrom(env, st, uuid, f))
    ensures Shrinks(st, AnswerFaultFrom(env, st, uuid, f))
    decreases Visible(st) - f
  {
    ShrinksItself(st);
    if f < Visible(st) {
      if st.slots[f].count == 0 {
        AnswerFaultKeeps(env, st, uuid, f + 1);
      } else {
        var st' := Rewrite(env, st, f, ByUuid(uuid), Answered);
        RewriteKeeps(env, st, f, ByUuid(uuid), Answered);
        AnswerFaultKeeps(env, st', uuid, f + 1);
        ShrinksTransitive(st, st', AnswerFaultFrom(env, st', uuid, f + 1));
      }
    }
  }

  /** The most lines that the files before f can hold. */
  function Room(f: nat): nat {
    if f == 0 then 0 else 100 + 50 * (f - 1)
  }

  /** One file of delete by text: the total stays within the room of the files so far. */
  lemma DropOneKeeps(env: Env, st: Store, target: string, f: nat, total: int) returns (next: Store, sum: int)
    requires StoreOk(env, st) && f < |st.slots| && 0 <= total <= Room(f)
    ensures sum == total + |Kept(env, ByText(target), st.slots[f].lines)| <= Room(f + 1)
    ensures next == Purge(env, st, f, ByText(target), Dropped,
                         if f < CONNECTORS then Byte(sum) else st.slots[f].count)
    ensures StoreOk(env, next) && Shrinks(st, next)
  {
    sum := total + |Kept(env, ByText(target), st.slots[f].lines)|;
    assert SlotOk(env, f, st.slots[f], st.trails[f]);
    var count := if f < CONNECTORS then Byte(sum) else st.slots[f].count;
    PurgeKeeps(env, st, f, ByText(target), Dropped, count);
    next := Purge(env, st, f, ByText(target), Dropped, count);
  }

  /** The running totals that retry deletion leaves in the counters are too big, never too
      small: the invariant survives. */
  lemma {:induction false} DropKeeps(env: Env, st: Store, target: string, f: nat, total: int)
    requires StoreOk(env, st) && 0 <= total <= Room(f)
    ensures StoreOk(env, DropFrom(env, st, target, f, total).0)
    ensures Shrinks(st, DropFrom(env, st, target, f, total).0)
    decreases Visible(st) - f
  {
    ShrinksItself(st);
    if f < Visible(st) {
      if st.slots[f].lines == [] {
        DropKeeps(env, st, target, f + 1, total);
      } else {
        var st', total' := DropOneKeeps(env, st, target, f, total);
        DropKeeps(env, st', target, f + 1, total');
        ShrinksTransitive(st, st', DropFrom(env, st', target, f + 1, total').0);
      }
    }
  }

  lemma RecountOne(env: Env, st: Store, f: nat)
    requires StoreOk(env, st) && f < |st.slots|
    ensures StoreOk(env, Recount(st, f)) && Recount(st, f).slots[f].count == |st.slots[f].lines|
  {
    assert SlotOk(env, f, st.slots[f], st.trails[f]);
    var st' := Recount(st, f);
    forall g | 0 <= g < |st'.slots| ensures SlotOk(env, g, st'.slots[g], st'.trails[g]) {
      assert SlotOk(env, g, st.slots[g], st.trails[g]);
    }
  }

  lemma {:induction false} RecountKeeps(env: Env, st: Store, f: nat)
    requires StoreOk(env, st)
    ensures StoreOk(env, RecountFrom(st, f))
    ensures var st' := RecountFrom(st, f);
            && |st'.slots| == |st.slots| && st'.trails == st.trails
            && st'.critical == st.critical && st'.named == st.named
            && forall g :: 0 <= g < |st.slots| ==>
                 && st'.slots[g].lines == st.slots[g].lines
                 && st'.slots[g].count == if f <= g < Visible(st) then |st.slots[g].lines| else st.slots[g].count
    decreases Visible(st) - f
  {
    if f < Visible(st) {
      RecountOne(env, st, f);
      RecountKeeps(env, Recount(st, f), f + 1);
    }
  }
}
