/** What the store operations do to the messages: guarded lookups see every line, responses
    and retry drops take out exactly one entry, and eviction makes a file a bounded queue. */
module StoreFacts {
  import opened Wrappers
  import opened Text
  import opened Entries
  import opened StoreModel

  // ---------------------------------------------------------------- lookups

  /** Skipping files whose counter is 0 loses nothing: the counter covers the lines. */
  lemma {:induction false} GuardedLookupSeesAll(env: Env, st: Store, uuid: string, f: nat)
    requires StoreOk(env, st)
    ensures LookupFrom(env, st, uuid, f) == ScanFrom(env, st, uuid, f, Visible(st))
    decreases Visible(st) - f
  {
    if f < Visible(st) {
      assert SlotOk(env, f, st.slots[f], st.trails[f]);
      GuardedLookupSeesAll(env, st, uuid, f + 1);
    }
  }

  lemma {:induction false} SearchMisses(env: Env, lines: seq<string>, uuid: string)
    requires forall x :: x in lines ==> UuidOf(env, x) != Some(uuid)
    ensures SearchFile(env, lines, uuid) == None
  {
    if lines != [] {
      assert forall x :: x in lines[1..] ==> x in lines;
      SearchMisses(env, lines[1..], uuid);
    }
  }

  /** A search that finds nothing, in lines that all have an action, saw no such UUID. */
  lemma {:induction false} SearchHits(env: Env, lines: seq<string>, uuid: string)
    requires SearchFile(env, lines, uuid).Some?
    ensures exists x :: x in lines && UuidOf(env, x) == Some(uuid) && ActionOf(env, x) == SearchFile(env, lines, uuid)
  {
    if UuidOf(env, lines[0]) != Some(uuid) {
      SearchHits(env, lines[1..], uuid);
      var x :| x in lines[1..] && UuidOf(env, x) == Some(uuid) && ActionOf(env, x) == SearchFile(env, lines[1..], uuid);
      assert x in lines;
    } else {
      assert lines[0] in lines;
    }
  }

  // ---------------------------------------------------------------- identified entries

  /** The UUID of x can be read in y. */
  ghost predicate Clash(env: Env, x: string, y: string) {
    UuidOf(env, x).Some? && Occurs(UuidOf(env, x).value, y)
  }

  /** No two lines of a file share a UUID, and none quotes another's. */
  ghost predicate ApartFile(env: Env, lines: seq<string>) {
    && (forall x :: x in lines ==> multiset(lines)[x] == 1)
    && (forall x, y :: x in lines && y in lines && x != y ==> !Clash(env, x, y))
  }

  ghost predicate ApartFiles(env: Env, a: seq<string>, b: seq<string>) {
    forall x, y :: x in a && y in b ==> !Clash(env, x, y)
  }

  ghost predicate Apart(env: Env, st: Store) {
    && (forall f {:trigger ApartFile(env, st.slots[f].lines)} ::
          0 <= f < |st.slots| ==> ApartFile(env, st.slots[f].lines))
    && (forall f, g {:trigger ApartFiles(env, st.slots[f].lines, st.slots[g].lines)} ::
          0 <= f < |st.slots| && 0 <= g < |st.slots| && f != g
          ==> ApartFiles(env, st.slots[f].lines, st.slots[g].lines))
  }

  /** A line the device wrote: its message parses, has a UUID that shows in its text, and
      has an action. */
  ghost predicate Identified(env: Env, line: string) {
    && UuidOf(env, line).Some? && ActionOf(env, line).Some?
    && UuidOf(env, line).value != ""
    && Occurs(UuidOf(env, line).value, Head(line))
    && Occurs(Head(line), line)
  }

  ghost predicate AllIdentified(env: Env, lines: seq<string>) {
    forall x :: x in lines ==> Identified(env, x)
  }

  ghost predicate StoreIdentified(env: Env, st: Store) {
    && Apart(env, st)
    && forall f {:trigger AllIdentified(env, st.slots[f].lines)} ::
         0 <= f < |st.slots| ==> AllIdentified(env, st.slots[f].lines)
  }

  lemma PartMembers(some: seq<string>, all: seq<string>)
    requires Part(some, all)
    ensures forall x :: x in some ==> x in all
    ensures forall x :: x in some ==> multiset(some)[x] <= multiset(all)[x]
  {
    forall x | x in some ensures x in all {
      assert x in multiset(some);
      assert multiset(some)[x] <= multiset(all)[x];
    }
  }

  lemma PartApart(env: Env, some: seq<string>, all: seq<string>)
    requires Part(some, all) && ApartFile(env, all)
    ensures ApartFile(env, some)
  {
    PartMembers(some, all);
  }

  lemma PartsApart(env: Env, a: seq<string>, a': seq<string>, b: seq<string>, b': seq<string>)
    requires Part(a', a) && Part(b', b) && ApartFiles(env, a, b)
    ensures ApartFiles(env, a', b')
  {
    PartMembers(a', a);
    PartMembers(b', b);
  }

  /** Losing lines keeps entries identified. */
  lemma ShrinkKeepsIdentified(env: Env, before: Store, after: Store)
    requires StoreIdentified(env, before) && Shrinks(before, after)
    ensures StoreIdentified(env, after)
  {
    forall f | 0 <= f < |after.slots|
      ensures ApartFile(env, after.slots[f].lines) && AllIdentified(env, after.slots[f].lines)
    {
      assert Part(after.slots[f].lines, before.slots[f].lines);
      assert ApartFile(env, before.slots[f].lines) && AllIdentified(env, before.slots[f].lines);
      PartApart(env, after.slots[f].lines, before.slots[f].lines);
      PartMembers(after.slots[f].lines, before.slots[f].lines);
    }
    forall f, g | 0 <= f < |after.slots| && 0 <= g < |after.slots| && f != g
      ensures ApartFiles(env, after.slots[f].lines, after.slots[g].lines)
    {
      assert Part(after.slots[f].lines, before.slots[f].lines) && Part(after.slots[g].lines, before.slots[g].lines);
      assert ApartFiles(env, before.slots[f].lines, before.slots[g].lines);
      PartsApart(env, before.slots[f].lines, after.slots[f].lines, before.slots[g].lines, after.slots[g].lines);
    }
  }

  // ---------------------------------------------------------------- exact removal

  lemma {:induction false} RulesAgree(env: Env, r1: Rule, r2: Rule, lines: seq<string>)
    requires forall x :: x in lines ==> (Hits(env, r1, x) <==> Hits(env, r2, x))
    ensures Kept(env, r1, lines) == Kept(env, r2, lines) && Gone(env, r1, lines) == Gone(env, r2, lines)
  {
    if lines != [] {
      var front := lines[..|lines| - 1];
      assert forall x :: x in front ==> x in lines;
      RulesAgree(env, r1, r2, front);
    }
  }

  lemma {:induction false} GoneByLine(env: Env, entry: string, lines: seq<string>)
    ensures Gone(env, ByLine(entry), lines) == multiset{}[entry := multiset(lines)[entry]]
  {
    if lines != [] {
      var front, last := lines[..|lines| - 1], lines[|lines| - 1];
      assert lines == front + [last];
      GoneByLine(env, entry, front);
    }
  }

  /** File g after file f lost exactly this line, for this reason: unchanged unless it is f. */
  ghost predicate RemovedIn(env: Env, before: Store, after: Store, f: nat, line: string, cause: Cause, g: nat)
    requires f < |before.slots| == |before.trails| && g < |before.slots| == |after.slots| == |after.trails|
  {
    && after.slots[g].lines ==
       (if g == f then Kept(env, ByLine(line), before.slots[f].lines) else before.slots[g].lines)
    && after.trails[g] == (if g == f then Charge(before.trails[f], cause, multiset{line}) else before.trails[g])
  }

  /** File f lost exactly this line, for this reason; every other file is as it was. */
  ghost predicate RemovedExactly(env: Env, before: Store, after: Store, f: nat, line: string, cause: Cause)
    requires Shaped(before) && f < |before.slots|
  {
    && Shaped(after) && |after.slots| == |before.slots|
    && after.critical == before.critical && after.named == before.named
    && forall g {:trigger RemovedIn(env, before, after, f, line, cause, g)} ::
         0 <= g < |before.slots| ==> RemovedIn(env, before, after, f, line, cause, g)
  }

  ghost predicate SameLines(before: Store, after: Store) {
    && |after.slots| == |before.slots| && after.trails == before.trails && after.critical == before.critical
    && forall g :: 0 <= g < |before.slots| ==> after.slots[g].lines == before.slots[g].lines
  }

  /** The line of file f and a rule that can only mean that line. */
  ghost predicate Singles(env: Env, st: Store, rule: Rule, f: nat, line: string) {
    && f < |st.slots| && line in st.slots[f].lines && multiset(st.slots[f].lines)[line] == 1
    && forall g, x :: 0 <= g < |st.slots| && x in st.slots[g].lines ==> (Hits(env, rule, x) <==> g == f && x == line)
  }

  lemma UuidSingles(env: Env, st: Store, f: nat, line: string, uuid: string)
    requires StoreIdentified(env, st) && f < |st.slots| && line in st.slots[f].lines
    requires UuidOf(env, line) == Some(uuid)
    ensures Singles(env, st, ByUuid(uuid), f, line)
  {
    assert ApartFile(env, st.slots[f].lines);
    forall g, x | 0 <= g < |st.slots| && x in st.slots[g].lines
      ensures Hits(env, ByUuid(uuid), x) <==> g == f && x == line
    {
      assert AllIdentified(env, st.slots[g].lines) && Identified(env, x);
      assert g != f ==> ApartFiles(env, st.slots[f].lines, st.slots[g].lines);
      if UuidOf(env, x) == Some(uuid) {
        OccursTransitive(uuid, Head(x), x);
        assert Clash(env, line, x);
      }
    }
  }

  lemma TextSingles(env: Env, st: Store, f: nat, line: string)
    requires StoreIdentified(env, st) && f < |st.slots| && line in st.slots[f].lines
    ensures Singles(env, st, ByText(Head(line)), f, line)
  {
    assert ApartFile(env, st.slots[f].lines) && AllIdentified(env, st.slots[f].lines);
    assert Identified(env, line);
    forall g, x | 0 <= g < |st.slots| && x in st.slots[g].lines
      ensures Hits(env, ByText(Head(line)), x) <==> g == f && x == line
    {
      assert g != f ==> ApartFiles(env, st.slots[f].lines, st.slots[g].lines);
      if Occurs(Head(line), x) {
        OccursTransitive(UuidOf(env, line).value, Head(line), x);
        assert Clash(env, line, x);
      }
    }
  }

  /** Under such a rule, any one file is rewritten to lose the line or not at all. */
  lemma SinglesKept(env: Env, st: Store, rule: Rule, f: nat, line: string, g: nat)
    requires Singles(env, st, rule, f, line) && g < |st.slots|
    ensures g == f ==> Kept(env, rule, st.slots[g].lines) == Kept(env, ByLine(line), st.slots[g].lines)
    ensures g == f ==> Gone(env, rule, st.slots[g].lines) == multiset{line}
    ensures g == f ==> |Kept(env, rule, st.slots[g].lines)| < |st.slots[g].lines|
    ensures g != f ==> Kept(env, rule, st.slots[g].lines) == st.slots[g].lines
    ensures g != f ==> Gone(env, rule, st.slots[g].lines) == multiset{}
  {
    if g == f {
      RulesAgree(env, rule, ByLine(line), st.slots[g].lines);
      GoneByLine(env, line, st.slots[g].lines);
      KeptAndGone(env, rule, st.slots[g].lines);
    } else {
      KeptAll(env, rule, st.slots[g].lines);
    }
  }

  lemma ChargeNothing(trail: Trail, cause: Cause)
    ensures Charge(trail, cause, multiset{}) == trail
  {
  }

  /** A response for a stored request-file entry takes out that entry and nothing else. */
  lemma AnswerRequestExact(env: Env, st: Store, line: string, uuid: string)
    requires Shaped(st) && StoreIdentified(env, st) && line in st.slots[REQUEST].lines
    requires UuidOf(env, line) == Some(uuid)
    ensures RemovedExactly(env, st, AnswerRequest(env, st, uuid), REQUEST, line, Answered)
  {
    UuidSingles(env, st, REQUEST, line, uuid);
    SinglesKept(env, st, ByUuid(uuid), REQUEST, line, REQUEST);
  }

  /** Rewriting a file that the rule does not touch only recounts it. */
  lemma RewriteElsewhere(env: Env, st: Store, rule: Rule, f: nat, line: string, cause: Cause, g: nat)
    requires Shaped(st) && Singles(env, st, rule, f, line) && g < |st.slots| && g != f
    ensures Rewrite(env, st, g, rule, cause) == Recount(st, g)
  {
    SinglesKept(env, st, rule, f, line, g);
    ChargeNothing(st.trails[g], cause);
  }

  lemma RewriteThere(env: Env, st: Store, rule: Rule, f: nat, line: string, cause: Cause)
    requires Shaped(st) && Singles(env, st, rule, f, line)
    ensures var st' := Rewrite(env, st, f, rule, cause);
            RemovedExactly(env, st, st', f, line, cause) && |st'.slots[f].lines| < |st.slots[f].lines|
  {
    SinglesKept(env, st, rule, f, line, f);
  }

  lemma RecountKeepsSingles(env: Env, st: Store, rule: Rule, f: nat, line: string, g: nat)
    requires Shaped(st) && Singles(env, st, rule, f, line) && g < |st.slots|
    ensures Singles(env, Recount(st, g), rule, f, line)
  {
    var st' := Recount(st, g);
    assert forall h :: 0 <= h < |st.slots| ==> st'.slots[h].lines == st.slots[h].lines;
  }

  lemma RecountIsNoRemoval(env: Env, st: Store, after: Store, f: nat, line: string, cause: Cause, g: nat)
    requires Shaped(st) && f < |st.slots| && g < |st.slots|
    requires RemovedExactly(env, Recount(st, g), after, f, line, cause)
    ensures RemovedExactly(env, st, after, f, line, cause)
  {
    forall h | 0 <= h < |st.slots| ensures RemovedIn(env, st, after, f, line, cause, h) {
      assert RemovedIn(env, Recount(st, g), after, f, line, cause, h);
    }
  }

  /** The chain of fault files from i on finds the entry in file f and stops there. */
  lemma {:induction false} AnswerFaultExactFrom(env: Env, st: Store, f: nat, line: string, uuid: string, i: nat)
    requires Shaped(st) && i <= f < Visible(st) && Singles(env, st, ByUuid(uuid), f, line)
    requires st.slots[f].count > 0
    ensures RemovedExactly(env, st, AnswerFaultFrom(env, st, uuid, i), f, line, Answered)
    decreases f - i
  {
    if i == f {
      RewriteThere(env, st, ByUuid(uuid), f, line, Answered);
    } else if st.slots[i].count == 0 {
      AnswerFaultExactFrom(env, st, f, line, uuid, i + 1);
    } else {
      RewriteElsewhere(env, st, ByUuid(uuid), f, line, Answered, i);
      RecountKeepsSingles(env, st, ByUuid(uuid), f, line, i);
      AnswerFaultExactFrom(env, Recount(st, i), f, line, uuid, i + 1);
      RecountIsNoRemoval(env, st, AnswerFaultFrom(env, Recount(st, i), uuid, i + 1), f, line, Answered, i);
    }
  }

  /** The same for a fault entry, in whichever fault file it waits. */
  lemma AnswerFaultExact(env: Env, st: Store, f: nat, line: string, uuid: string)
    requires StoreOk(env, st) && StoreIdentified(env, st)
    requires ONLINE <= f < Visible(st) && line in st.slots[f].lines && UuidOf(env, line) == Some(uuid)
    ensures RemovedExactly(env, st, AnswerFault(env, st, uuid), f, line, Answered)
  {
    assert SlotOk(env, f, st.slots[f], st.trails[f]);
    UuidSingles(env, st, f, line, uuid);
    AnswerFaultExactFrom(env, st, f, line, uuid, ONLINE);
  }

  // ---------------------------------------------------------------- the counters that responses leave

  /** A response to a request counts the request file, and no other. */
  lemma AnswerRequestCounts(env: Env, st: Store, uuid: string)
    requires StoreOk(env, st)
    ensures var st' := AnswerRequest(env, st, uuid);
            && Shaped(st') && |st'.slots| == |st.slots|
            && st'.slots[REQUEST].count == |st'.slots[REQUEST].lines|
            && forall g :: 0 < g < |st.slots| ==> st'.slots[g] == st.slots[g]
  {
    RewriteKeeps(env, st, REQUEST, ByUuid(uuid), Answered);
  }

  /** The files from i to f that had a counter are counted, no others. */
  ghost predicate CountedTo(before: Store, after: Store, i: nat, f: nat) {
    && Shaped(after) && |after.slots| == |before.slots|
    && forall g :: 0 <= g < |before.slots| ==>
         after.slots[g].count ==
         if i <= g <= f && before.slots[g].count != 0 then |after.slots[g].lines| else before.slots[g].count
  }

  lemma {:induction false} AnswerFaultCountsFrom(env: Env, st: Store, f: nat, line: string, uuid: string, i: nat)
    requires StoreOk(env, st) && i <= f < Visible(st) && Singles(env, st, ByUuid(uuid), f, line)
    requires st.slots[f].count > 0
    ensures CountedTo(st, AnswerFaultFrom(env, st, uuid, i), i, f)
    decreases f - i
  {
    if i == f {
      RewriteThere(env, st, ByUuid(uuid), f, line, Answered);
      RewriteKeeps(env, st, f, ByUuid(uuid), Answered);
    } else if st.slots[i].count == 0 {
      AnswerFaultCountsFrom(env, st, f, line, uuid, i + 1);
    } else {
      RewriteElsewhere(env, st, ByUuid(uuid), f, line, Answered, i);
      RecountKeepsSingles(env, st, ByUuid(uuid), f, line, i);
      RecountOne(env, st, i);
      CountedLater(env, st, f, line, uuid, i);
    }
  }

  /** One file that has a counter and not the entry is counted, and then the later ones. */
  lemma CountedLater(env: Env, st: Store, f: nat, line: string, uuid: string, i: nat)
    requires StoreOk(env, st) && i < f < Visible(st) && StoreOk(env, Recount(st, i)) && st.slots[i].count != 0
    requires Recount(st, i).slots[i].count == |st.slots[i].lines|
    requires Singles(env, Recount(st, i), ByUuid(uuid), f, line) && st.slots[f].count > 0
    ensures CountedTo(st, AnswerFaultFrom(env, Recount(st, i), uuid, i + 1), i, f)
    decreases f - i, 0
  {
    var mid := Recount(st, i);
    AnswerFaultCountsFrom(env, mid, f, line, uuid, i + 1);
    EarlierLinesStay(env, mid, f, line, uuid, i);
    CountedFirst(st, mid, AnswerFaultFrom(env, mid, uuid, i + 1), i, f);
  }

  lemma EarlierLinesStay(env: Env, st: Store, f: nat, line: string, uuid: string, i: nat)
    requires Shaped(st) && i < f < Visible(st) && Singles(env, st, ByUuid(uuid), f, line) && st.slots[f].count > 0
    ensures var st' := AnswerFaultFrom(env, st, uuid, i + 1);
            Shaped(st') && |st'.slots| == |st.slots| && st'.slots[i].lines == st.slots[i].lines
  {
    AnswerFaultExactFrom(env, st, f, line, uuid, i + 1);
    assert RemovedIn(env, st, AnswerFaultFrom(env, st, uuid, i + 1), f, line, Answered, i);
  }

  lemma CountedFirst(before: Store, mid: Store, after: Store, i: nat, f: nat)
    requires CountedTo(mid, after, i + 1, f) && i < f && i < |before.slots| && before.slots[i].count != 0
    requires mid.slots == before.slots[i := Slot(before.slots[i].lines, |before.slots[i].lines|)]
    requires after.slots[i].lines == before.slots[i].lines
    ensures CountedTo(before, after, i, f)
  {
  }

  /** A response to a fault counts the file that lost the entry and each fault file before it that
      had a counter; all other counters stay. */
  lemma AnswerFaultCounts(env: Env, st: Store, f: nat, line: string, uuid: string)
    requires StoreOk(env, st) && StoreIdentified(env, st)
    requires ONLINE <= f < Visible(st) && line in st.slots[f].lines && UuidOf(env, line) == Some(uuid)
    ensures CountedTo(st, AnswerFault(env, st, uuid), ONLINE, f)
    ensures var slot := AnswerFault(env, st, uuid).slots[f]; slot.count == |slot.lines|
  {
    assert SlotOk(env, f, st.slots[f], st.trails[f]);
    UuidSingles(env, st, f, line, uuid);
    AnswerFaultCountsFrom(env, st, f, line, uuid, ONLINE);
  }

  // ---------------------------------------------------------------- delete by text

  /** File g lost its lines with the text, and its trail says so. */
  ghost predicate DroppedIn(env: Env, target: string, before: Store, after: Store, g: nat)
    requires g < |before.slots| == |before.trails| && |after.slots| == |after.trails| == |before.slots|
  {
    && after.slots[g].lines == Kept(env, ByText(target), before.slots[g].lines)
    && after.trails[g] == Charge(before.trails[g], Dropped, Gone(env, ByText(target), before.slots[g].lines))
  }

  function KeptCount(env: Env, st: Store, target: string, f: nat): nat
    requires f < |st.slots|
  {
    |Kept(env, ByText(target), st.slots[f].lines)|
  }

  /** Delete by text, one file: it loses its lines with the text, one of the first three counts
      the total, and no other file changes. */
  lemma DropHere(env: Env, st: Store, target: string, f: nat, total: int) returns (next: Store, sum: int)
    requires Shaped(st) && f < Visible(st)
    ensures sum == total + KeptCount(env, st, target, f)
    ensures var count := if f < CONNECTORS then Byte(sum) else st.slots[f].count;
            next == if st.slots[f].lines == [] then st else Purge(env, st, f, ByText(target), Dropped, count)
    ensures Shaped(next) && |next.slots| == |st.slots| && DroppedIn(env, target, st, next, f)
    ensures forall g :: 0 <= g < |st.slots| && g != f ==> next.slots[g] == st.slots[g] && next.trails[g] == st.trails[g]
    ensures DropFrom(env, st, target, f, total) == DropFrom(env, next, target, f + 1, sum)
  {
    next, sum := st, total + KeptCount(env, st, target, f);
    ChargeNothing(st.trails[f], Dropped);
    if st.slots[f].lines != [] {
      next := Purge(env, st, f, ByText(target), Dropped, if f < CONNECTORS then Byte(sum) else st.slots[f].count);
    }
  }

  /** Delete by text from file f on leaves the files before f, and those it cannot see, alone. */
  lemma {:induction false} DropBehind(env: Env, st: Store, target: string, f: nat, total: int)
    requires Shaped(st)
    ensures var st' := DropFrom(env, st, target, f, total).0;
            && Shaped(st') && |st'.slots| == |st.slots| && st'.critical == st.critical && st'.named == st.named
            && forall g :: 0 <= g < |st.slots| && (g < f || Visible(st) <= g) ==>
                 st'.slots[g] == st.slots[g] && st'.trails[g] == st.trails[g]
    decreases Visible(st) - f
  {
    if f < Visible(st) {
      var next, sum := DropHere(env, st, target, f, total);
      DropBehind(env, next, target, f + 1, sum);
    }
  }

  /** Delete by text works on every file it sees alike: each keeps exactly the lines without the text. */
  lemma {:induction false} DropLines(env: Env, st: Store, target: string, f: nat, total: int)
    requires Shaped(st)
    ensures var st' := DropFrom(env, st, target, f, total).0;
            && Shaped(st') && |st'.slots| == |st.slots| && st'.critical == st.critical && st'.named == st.named
            && (forall g :: 0 <= g < |st.slots| && (g < f || Visible(st) <= g) ==>
                  st'.slots[g] == st.slots[g] && st'.trails[g] == st.trails[g])
            && (forall g {:trigger DroppedIn(env, target, st, st', g)} ::
                  f <= g < Visible(st) ==> DroppedIn(env, target, st, st', g))
    decreases Visible(st) - f
  {
    DropBehind(env, st, target, f, total);
    if f < Visible(st) {
      var next, sum := DropHere(env, st, target, f, total);
      DropLines(env, next, target, f + 1, sum);
      var st' := DropFrom(env, next, target, f + 1, sum).0;
      forall g | f <= g < Visible(st) ensures DroppedIn(env, target, st, st', g) {
        if g > f {
          assert DroppedIn(env, target, next, st', g);
        }
      }
    }
  }

  /** Dropping the text of a stored entry takes out that entry and nothing else. */
  lemma DropExact(env: Env, st: Store, f: nat, line: string)
    requires Shaped(st) && StoreIdentified(env, st) && f < Visible(st) && line in st.slots[f].lines
    ensures RemovedExactly(env, st, DropText(env, st, Head(line)), f, line, Dropped)
  {
    TextSingles(env, st, f, line);
    DropLines(env, st, Head(line), REQUEST, 0);
    forall g | 0 <= g < |st.slots| ensures RemovedIn(env, st, DropText(env, st, Head(line)), f, line, Dropped, g) {
      assert g < Visible(st) ==> DroppedIn(env, Head(line), st, DropText(env, st, Head(line)), g);
      SinglesKept(env, st, ByText(Head(line)), f, line, g);
      ChargeNothing(st.trails[g], Dropped);
    }
  }

  /** The kept lines of the files up to f. */
  function KeptUpTo(env: Env, st: Store, target: string, f: nat): nat
    requires f < |st.slots|
  {
    KeptCount(env, st, target, f) + (if f == 0 then 0 else KeptUpTo(env, st, target, f - 1))
  }

  function KeptBefore(env: Env, st: Store, target: string, f: nat): nat
    requires f < |st.slots|
  {
    if f == 0 then 0 else KeptUpTo(env, st, target, f - 1)
  }

  lemma {:induction false} KeptUpToRoom(env: Env, st: Store, target: string, f: nat)
    requires StoreOk(env, st) && f < CONNECTORS
    ensures KeptUpTo(env, st, target, f) <= 100 + 50 * f
  {
    KeptCountBelowCap(env, st, target, f);
    if f > 0 {
      KeptUpToRoom(env, st, target, f - 1);
    }
  }

  /** Delete by text comes to file g with this store: files from g on are untouched and the total
      is that of the files before. */
  ghost predicate Reaches(env: Env, st: Store, target: string, g: nat, mid: Store)
    requires Shaped(st) && g < |st.slots|
  {
    && Shaped(mid) && |mid.slots| == |st.slots| && mid.named == st.named
    && (forall h :: g <= h < |st.slots| ==> mid.slots[h] == st.slots[h])
    && DropText(env, st, target) == DropFrom(env, mid, target, g, KeptBefore(env, st, target, g)).0
  }

  lemma {:induction false} DropReaches(env: Env, st: Store, target: string, g: nat) returns (mid: Store)
    requires StoreOk(env, st) && g < CONNECTORS
    ensures Reaches(env, st, target, g, mid)
  {
    mid := st;
    if g > 0 {
      var before := DropReaches(env, st, target, g - 1);
      mid := DropReachesNext(env, st, target, g - 1, before);
    }
  }

  lemma DropReachesNext(env: Env, st: Store, target: string, g: nat, before: Store) returns (mid: Store)
    requires StoreOk(env, st) && g + 1 < CONNECTORS && Reaches(env, st, target, g, before)
    ensures Reaches(env, st, target, g + 1, mid)
  {
    var total := KeptBefore(env, st, target, g);
    KeptUpToRoom(env, st, target, g);
    assert KeptCount(env, before, target, g) == KeptCount(env, st, target, g);
    var sum;
    mid, sum := DropHere(env, before, target, g, total);
    assert KeptBefore(env, st, target, g + 1) == total + KeptCount(env, st, target, g);
  }

  /** The counter that delete by text leaves for each of the first three files: the kept lines
      of all files up to it, unless the file was empty; then it stays. */
  lemma DropCounts(env: Env, st: Store, target: string, f: nat)
    requires StoreOk(env, st) && f < CONNECTORS
    ensures var st' := DropText(env, st, target);
            && Shaped(st') && |st'.slots| == |st.slots|
            && st'.slots[f].count == if st.slots[f].lines == [] then st.slots[f].count else KeptUpTo(env, st, target, f)
    ensures forall g :: CONNECTORS <= g < |st.slots| ==> DropText(env, st, target).slots[g].count == st.slots[g].count
  {
    ConnectorCountsStay(env, st, target, REQUEST, 0);
    var mid := DropReaches(env, st, target, f);
    KeptUpToRoom(env, st, target, f);
    assert KeptCount(env, mid, target, f) == KeptCount(env, st, target, f);
    CountsFrom(env, mid, target, f, KeptBefore(env, st, target, f));
  }

  /** The counters of the connector files stay. */
  lemma {:induction false} ConnectorCountsStay(env: Env, st: Store, target: string, f: nat, total: int)
    requires Shaped(st)
    ensures var st' := DropFrom(env, st, target, f, total).0;
            && Shaped(st') && |st'.slots| == |st.slots|
            && forall g :: CONNECTORS <= g < |st.slots| ==> st'.slots[g].count == st.slots[g].count
    decreases Visible(st) - f
  {
    if f < Visible(st) {
      var next, sum := DropHere(env, st, target, f, total);
      ConnectorCountsStay(env, next, target, f + 1, sum);
    }
  }

  /** What is counted in one of the first three files stays counted. */
  lemma CountsFrom(env: Env, st: Store, target: string, f: nat, total: int)
    requires Shaped(st) && f < CONNECTORS && 0 <= total + KeptCount(env, st, target, f) <= 255
    ensures var st' := DropFrom(env, st, target, f, total).0;
            && Shaped(st') && |st'.slots| == |st.slots|
            && st'.slots[f].count ==
               if st.slots[f].lines == [] then st.slots[f].count else total + KeptCount(env, st, target, f)
  {
    var next, sum := DropHere(env, st, target, f, total);
    DropBehind(env, next, target, f + 1, sum);
  }

  lemma KeptCountBelowCap(env: Env, st: Store, target: string, f: nat)
    requires StoreOk(env, st) && f < |st.slots|
    ensures KeptCount(env, st, target, f) <= Cap(f)
  {
    assert SlotOk(env, f, st.slots[f], st.trails[f]);
  }

  /** An append evicts exactly when the counter has reached the cap. */
  lemma SaveEvictsIff(env: Env, st: Store, f: nat, message: string, timestamp: string)
    requires StoreOk(env, st) && f < |st.slots| && st.slots[f].lines != []
    ensures var lines := Save(env, st, f, message, timestamp).slots[f].lines;
            lines == st.slots[f].lines + [Line(message, timestamp)] <==> st.slots[f].count < Cap(f)
  {
    var lines := st.slots[f].lines;
    assert SlotOk(env, f, st.slots[f], st.trails[f]);
    var k := OldestIsFirstMinimum(env, lines);
    EvictionShrinksIff(env, lines);
  }

  /** The counter that an append leaves: one more, or, after an eviction, one more than the lines
      that eviction wrote back. */
  lemma SaveCounts(env: Env, st: Store, f: nat, message: string, timestamp: string)
    requires StoreOk(env, st) && f < |st.slots|
    ensures var slot, slot' := st.slots[f], Save(env, st, f, message, timestamp).slots[f];
            && |slot'.lines| > 0 && slot'.lines[|slot'.lines| - 1] == Line(message, timestamp)
            && slot'.count == if slot.count < (if f == REQUEST then 100 else 50) then slot.count + 1 else |slot'.lines|
  {
    assert SlotOk(env, f, st.slots[f], st.trails[f]);
    SaveSlot(env, st, f, message, timestamp);
    SavedCounts(env, st.slots[f], Cap(f), Line(message, timestamp));
  }

  lemma SavedCounts(env: Env, slot: Slot, cap: nat, line: string)
    requires |slot.lines| <= slot.count <= 255 && |slot.lines| <= cap <= 100
    ensures var slot' := Saved(env, slot, cap, line);
            && |slot'.lines| > 0 && slot'.lines[|slot'.lines| - 1] == line
            && slot'.count == if slot.count < cap then slot.count + 1 else |slot'.lines|
  {
    RoomyCounts(env, slot, cap);
    GrownCounts(Roomy(env, slot, cap), line);
  }

  lemma RoomyCounts(env: Env, slot: Slot, cap: nat)
    requires |slot.lines| <= slot.count <= 255 && |slot.lines| <= cap <= 100
    ensures var room := Roomy(env, slot, cap);
            0 <= room.count <= 100 && (if slot.count < cap then room == slot else room.count == |room.lines|)
  {
    var kept := RemoveOldest(env, slot.lines);
    SmallByte(|kept|);
  }

  lemma SmallByte(n: nat)
    requires n < 256
    ensures Byte(n) == n
  {
  }

  lemma GrownCounts(slot: Slot, line: string)
    requires 0 <= slot.count <= 100
    ensures var slot' := Grown(slot, line);
            && |slot'.lines| == |slot.lines| + 1 && slot'.lines[|slot.lines|] == line
            && slot'.count == slot.count + 1
  {
  }

  lemma SaveElsewhere(env: Env, st: Store, f: nat, message: string, timestamp: string)
    requires Shaped(st) && f < |st.slots|
    ensures var st' := Save(env, st, f, message, timestamp);
            && Shaped(st') && |st'.slots| == |st.slots|
            && st'.critical == st.critical && st'.named == st.named
            && forall g :: 0 <= g < |st.slots| && g != f ==>
                 st'.slots[g] == st.slots[g] && st'.trails[g] == st.trails[g]
  {
  }

  /** Because of the running totals, the first append to a charger fault file after a retry drop
      evicts its oldest fault exactly when the entries of all files up to it reach 50, even
      where the file alone is far from its cap. */
  lemma DropThenSaveEvictsIff(env: Env, st: Store, target: string, f: nat, message: string, timestamp: string)
    requires StoreOk(env, st) && (f == ONLINE || f == OFFLINE) && KeptCount(env, st, target, f) > 0
    ensures var st' := DropText(env, st, target);
            && Shaped(st') && |st'.slots| == |st.slots|
            && var lines := st'.slots[f].lines;
            && |lines| == KeptCount(env, st, target, f)
            && (Save(env, st', f, message, timestamp).slots[f].lines == lines + [Line(message, timestamp)]
                <==> KeptUpTo(env, st, target, f) < 50)
  {
    var st' := DropText(env, st, target);
    DropCounts(env, st, target, f);
    DropLines(env, st, target, REQUEST, 0);
    assert DroppedIn(env, target, st, st', f);
    DropKeeps(env, st, target, REQUEST, 0);
    SaveEvictsIff(env, st', f, message, timestamp);
  }

  /** A counter at the cap costs a file its only line. */
  lemma OnlyLineEvicted(env: Env, st: Store, f: nat, line: string, message: string, timestamp: string)
    requires Shaped(st) && f < |st.slots| && st.slots[f].lines == [line] && st.slots[f].count >= Cap(f)
    requires Stamped(env, line)
    ensures Save(env, st, f, message, timestamp).slots[f].lines == [Line(message, timestamp)]
  {
    SaveSlot(env, st, f, message, timestamp);
    EvictsHead(env, [line]);
  }

  // ---------------------------------------------------------------- the bounded queue

  ghost predicate InOrder(env: Env, lines: seq<string>) {
    forall i, j :: 0 <= i < j < |lines| ==> Instant(env, lines[i]) <= Instant(env, lines[j])
  }

  /** With timestamps that never go back, eviction takes the head of the queue. */
  lemma EvictsHead(env: Env, lines: seq<string>)
    requires lines != [] && Distinct(lines) && InOrder(env, lines) && AllStamped(env, lines)
    ensures RemoveOldest(env, lines) == lines[1..]
  {
    var k := EvictionRemovesOne(env, lines);
    assert Instant(env, lines[k]) <= Instant(env, lines[0]);
    assert k == 0;
    assert lines[..0] + lines[1..] == lines[1..];
  }

  function Latest(lines: seq<string>, n: nat): seq<string> {
    if |lines| <= n then lines else lines[|lines| - n..]
  }

  /** Successive appends of message and timestamp pairs to one file. */
  function SaveAll(env: Env, st: Store, f: nat, batch: seq<(string, string)>): Store
    requires Shaped(st) && f < |st.slots|
    ensures Shaped(SaveAll(env, st, f, batch)) && |SaveAll(env, st, f, batch).slots| == |st.slots|
  {
    if batch == [] then st
    else
      var last := batch[|batch| - 1];
      Save(env, SaveAll(env, st, f, batch[..|batch| - 1]), f, last.0, last.1)
  }

  function Lines(batch: seq<(string, string)>): (r: seq<string>)
    ensures |r| == |batch|
  {
    seq(|batch|, i requires 0 <= i < |batch| => Line(batch[i].0, batch[i].1))
  }

  lemma LatestAt(all: seq<string>, n: nat, i: nat)
    requires i < |Latest(all, n)|
    ensures Latest(all, n)[i] == all[|all| - |Latest(all, n)| + i]
  {
  }

  lemma LatestOrdered(env: Env, all: seq<string>, n: nat)
    requires Distinct(all) && InOrder(env, all)
    ensures Distinct(Latest(all, n)) && InOrder(env, Latest(all, n))
  {
    var some := Latest(all, n);
    forall i, j | 0 <= i < j < |some|
      ensures some[i] != some[j] && Instant(env, some[i]) <= Instant(env, some[j])
    {
      LatestAt(all, n, i);
      LatestAt(all, n, j);
    }
  }

  lemma LatestSnoc(all: seq<string>, n: nat, line: string)
    requires n > 0
    ensures Latest(all + [line], n) ==
            (if |Latest(all, n)| == n then Latest(all, n)[1..] else Latest(all, n)) + [line]
  {
    if |all| >= n {
      assert Latest(all, n) == all[|all| - n..];
      assert (all + [line])[|all| + 1 - n..] == all[|all| - n..][1..] + [line];
    }
  }

  lemma QueueStep(env: Env, all: seq<string>, n: nat, line: string)
    requires n > 0 && Distinct(all) && InOrder(env, all) && AllStamped(env, Latest(all, n))
    ensures Latest(all + [line], n) ==
            (if |Latest(all, n)| == n then RemoveOldest(env, Latest(all, n)) else Latest(all, n)) + [line]
  {
    LatestSnoc(all, n, line);
    if |Latest(all, n)| == n {
      LatestOrdered(env, all, n);
      EvictsHead(env, Latest(all, n));
    }
  }

  /** A slot with room for one more. */
  function Roomy(env: Env, slot: Slot, cap: nat): Slot {
    if slot.count >= cap then Slot(RemoveOldest(env, slot.lines), Byte(|RemoveOldest(env, slot.lines)|)) else slot
  }

  function Grown(slot: Slot, line: string): Slot {
    Slot(slot.lines + [line], Byte(slot.count + 1))
  }

  /** A slot after an append with the given cap. */
  function Saved(env: Env, slot: Slot, cap: nat, line: string): Slot {
    Grown(Roomy(env, slot, cap), line)
  }

  lemma MakeRoomSlot(env: Env, st: Store, f: nat)
    requires Shaped(st) && f < |st.slots|
    ensures MakeRoom(env, st, f).slots[f] == Roomy(env, st.slots[f], Cap(f))
  {
  }

  /** The file an append works on, after it. */
  lemma SaveSlot(env: Env, st: Store, f: nat, message: string, timestamp: string)
    requires Shaped(st) && f < |st.slots|
    ensures Save(env, st, f, message, timestamp).slots[f] == Saved(env, st.slots[f], Cap(f), Line(message, timestamp))
  {
    MakeRoomSlot(env, st, f);
  }

  /** One append to an ordered, exactly counted file is one step of a bounded queue. */
  lemma SavedIsQueueStep(env: Env, slot: Slot, cap: nat, all: seq<string>, line: string)
    requires 0 < cap <= 100 && AllStamped(env, slot.lines)
    requires slot.lines == Latest(all, cap) && slot.count == |slot.lines|
    requires Distinct(all) && InOrder(env, all)
    ensures var next := Latest(all + [line], cap);
            Saved(env, slot, cap, line) == Slot(next, |next|)
  {
    QueueStep(env, all, cap, line);
    var kept := if slot.count >= cap then RemoveOldest(env, slot.lines) else slot.lines;
    assert kept + [line] == Latest(all + [line], cap);
    assert |kept| < cap;
  }

  /** From an exactly counted file, any batch of appends with timestamps that never go back
      leaves exactly the latest entries, as many as the cap, oldest first. */
  lemma {:induction false} SavesAreBoundedQueue(env: Env, st: Store, f: nat, batch: seq<(string, string)>)
    requires StoreOk(env, st) && f < |st.slots| && st.slots[f].count == |st.slots[f].lines|
    requires Distinct(st.slots[f].lines + Lines(batch)) && InOrder(env, st.slots[f].lines + Lines(batch))
    requires forall i :: 0 <= i < |batch| ==> '|' !in batch[i].1 && env.when(batch[i].1) < env.when(SENTINEL)
    ensures var st' := SaveAll(env, st, f, batch);
            && StoreOk(env, st')
            && st'.slots[f].lines == Latest(st.slots[f].lines + Lines(batch), Cap(f))
            && st'.slots[f].count == |st'.slots[f].lines|
    decreases |batch|
  {
    var first := st.slots[f].lines;
    if batch == [] {
      assert SlotOk(env, f, st.slots[f], st.trails[f]);
      assert first + Lines(batch) == first;
    } else {
      var front, last := batch[..|batch| - 1], batch[|batch| - 1];
      var all := first + Lines(front);
      assert first + Lines(batch) == all + [Line(last.0, last.1)];
      assert forall i :: 0 <= i < |all| ==> all[i] == (first + Lines(batch))[i];
      SavesAreBoundedQueue(env, st, f, front);
      var mid := SaveAll(env, st, f, front);
      assert SlotOk(env, f, mid.slots[f], mid.trails[f]);
      SaveKeeps(env, mid, f, last.0, last.1);
      SaveSlot(env, mid, f, last.0, last.1);
      SavedIsQueueStep(env, mid.slots[f], Cap(f), all, Line(last.0, last.1));
    }
  }
}
