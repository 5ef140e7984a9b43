/** Stored lines of the form message|timestamp, and the three ways the file code
    decides which lines of a file go. */
module Entries {
  import opened Wrappers
  import opened Text

  /** What cJSON makes of a message: items 1 and 2 of the array, when they are strings. */
  datatype Json = Invalid | Valid(uuid: Option<string>, action: Option<string>)

  /** The foreign routines: the JSON parser, and the instant a timestamp text denotes. */
  datatype Env = Env(parse: string -> Json, when: string -> int)

  const SENTINEL: string := "9999-99-99T99:99:99Z"

  function Line(message: string, timestamp: string): string {
    message + "|" + timestamp
  }

  /** The text before the first bar, when there is a bar. */
  function MessageOf(line: string): Option<string> {
    var p := First(line, '|');
    if p < |line| then Some(line[..p]) else None
  }

  /** What the dispatcher sends: the line cut at the first bar, if any. */
  function Head(line: string): string {
    line[..First(line, '|')]
  }

  function JsonUuid(json: Json): Option<string> {
    if json.Valid? then json.uuid else None
  }

  function UuidOf(env: Env, line: string): Option<string> {
    match MessageOf(line)
    case None => None
    case Some(message) => JsonUuid(env.parse(message))
  }

  function ActionOf(env: Env, line: string): Option<string> {
    match MessageOf(line)
    case None => None
    case Some(message) =>
      var json := env.parse(message);
      if json.Valid? then json.action else None
  }

  /** The line carries a timestamp that is older than the sentinel. */
  predicate Stamped(env: Env, line: string) {
    var p := Last(line, '|');
    0 <= p && env.when(line[p + 1..]) < env.when(SENTINEL)
  }

  lemma LineParts(message: string, timestamp: string)
    ensures '|' !in timestamp ==>
              var p := Last(Line(message, timestamp), '|');
              p == |message| && Line(message, timestamp)[p + 1..] == timestamp
    ensures '|' !in message ==>
              MessageOf(Line(message, timestamp)) == Some(message) && Head(Line(message, timestamp)) == message
  {
    var line := Line(message, timestamp);
    assert line[|message|] == '|' && line[|message| + 1..] == timestamp && line[..|message|] == message;
    if '|' !in timestamp {
      assert forall j :: |message| < j < |line| ==> line[j] == timestamp[j - |message| - 1];
      LastIs(line, '|', |message|);
    }
    if '|' !in message {
      assert forall j :: 0 <= j < |message| ==> line[j] == message[j];
      FirstIs(line, '|', |message|);
    }
  }

  // ---------------------------------------------------------------- removal rules

  /** Which lines a rewrite of a file leaves out. */
  datatype Rule =
    | ByUuid(uuid: string)
    | ByText(target: string)
    | ByLine(entry: string)

  predicate Hits(env: Env, rule: Rule, line: string) {
    match rule
    case ByUuid(uuid) => UuidOf(env, line) == Some(uuid)
    case ByText(target) => Occurs(target, line)
    case ByLine(entry) => line == entry
  }

  function Kept(env: Env, rule: Rule, lines: seq<string>): (kept: seq<string>)
    ensures |kept| <= |lines|
  {
    if lines == [] then []
    else
      var last := lines[|lines| - 1];
      var front := Kept(env, rule, lines[..|lines| - 1]);
      if Hits(env, rule, last) then front else front + [last]
  }

  function Gone(env: Env, rule: Rule, lines: seq<string>): multiset<string> {
    if lines == [] then multiset{}
    else
      var last := lines[|lines| - 1];
      var front := Gone(env, rule, lines[..|lines| - 1]);
      if Hits(env, rule, last) then front + multiset{last} else front
  }

  /** Order-preserving containment. */
  ghost predicate Subseq(a: seq<string>, b: seq<string>)
    decreases |b|
  {
    if a == [] then true
    else if b == [] then false
    else
      var b' := b[..|b| - 1];
      || Subseq(a, b')
      || (a[|a| - 1] == b[|b| - 1] && Subseq(a[..|a| - 1], b'))
  }

  lemma {:induction false} SubseqTransitive(a: seq<string>, b: seq<string>, c: seq<string>)
    requires Subseq(a, b) && Subseq(b, c)
    ensures Subseq(a, c)
    decreases |c|
  {
    if a != [] && b != [] && c != [] {
      var a', b', c' := a[..|a| - 1], b[..|b| - 1], c[..|c| - 1];
      if Subseq(b, c') {
        SubseqTransitive(a, b, c');
      } else if Subseq(a, b') {
        SubseqTransitive(a, b', c');
      } else {
        SubseqTransitive(a', b', c');
      }
    }
  }

  lemma SubseqSnoc(a: seq<string>, b: seq<string>, x: string)
    requires Subseq(a, b)
    ensures Subseq(a + [x], b + [x])
  {
    assert (a + [x])[..|a|] == a && (b + [x])[..|b|] == b;
  }

  lemma {:induction false} SubseqItself(a: seq<string>)
    ensures Subseq(a, a)
  {
    if a != [] { SubseqItself(a[..|a| - 1]); }
  }

  /** A rewrite keeps the order of what it keeps. */
  lemma {:induction false} KeptInOrder(env: Env, rule: Rule, lines: seq<string>)
    ensures Subseq(Kept(env, rule, lines), lines)
  {
    if lines != [] {
      var front, last := lines[..|lines| - 1], lines[|lines| - 1];
      KeptInOrder(env, rule, front);
      assert lines == front + [last];
      if !Hits(env, rule, last) {
        SubseqSnoc(Kept(env, rule, front), front, last);
      }
    }
  }

  /** What a rewrite keeps and what it drops together are the file. */
  lemma {:induction false} KeptAndGone(env: Env, rule: Rule, lines: seq<string>)
    ensures multiset(lines) == multiset(Kept(env, rule, lines)) + Gone(env, rule, lines)
    ensures |lines| == |Kept(env, rule, lines)| + |Gone(env, rule, lines)|
  {
    if lines != [] {
      var front, last := lines[..|lines| - 1], lines[|lines| - 1];
      KeptAndGone(env, rule, front);
      assert lines == front + [last];
    }
  }

  lemma {:induction false} KeptMembers(env: Env, rule: Rule, lines: seq<string>)
    ensures forall x :: x in Kept(env, rule, lines) <==> x in lines && !Hits(env, rule, x)
    ensures forall x :: x in Gone(env, rule, lines) <==> x in lines && Hits(env, rule, x)
  {
    if lines != [] {
      var front, last := lines[..|lines| - 1], lines[|lines| - 1];
      KeptMembers(env, rule, front);
      assert lines == front + [last];
      assert forall x :: x in lines <==> x in front || x == last;
    }
  }

  /** Rule by rule: by UUID go the lines whose message parses to it, by text the lines that contain
      it anywhere, by line the lines equal to it. */
  lemma KeptByRule(env: Env, lines: seq<string>, x: string, uuid: string, target: string, entry: string)
    ensures x in Kept(env, ByUuid(uuid), lines) <==>
            x in lines && !('|' in x && env.parse(Head(x)).Valid? && env.parse(Head(x)).uuid == Some(uuid))
    ensures x in Kept(env, ByText(target), lines) <==>
            x in lines && !(exists before, after :: x == before + target + after)
    ensures x in Kept(env, ByLine(entry), lines) <==> x in lines && x != entry
  {
    KeptMembers(env, ByUuid(uuid), lines);
    KeptMembers(env, ByText(target), lines);
    KeptMembers(env, ByLine(entry), lines);
    OccursIff(target, x);
  }

  /** A rewrite that hits nothing changes nothing. */
  lemma {:induction false} KeptAll(env: Env, rule: Rule, lines: seq<string>)
    requires forall x :: x in lines ==> !Hits(env, rule, x)
    ensures Kept(env, rule, lines) == lines && Gone(env, rule, lines) == multiset{}
  {
    if lines != [] {
      var front := lines[..|lines| - 1];
      assert forall x :: x in front ==> x in lines;
      KeptAll(env, rule, front);
    }
  }

  /** One step of a rewrite loop. */
  lemma KeptStep(env: Env, rule: Rule, lines: seq<string>, k: nat)
    requires k < |lines|
    ensures Kept(env, rule, lines[..k + 1]) ==
            Kept(env, rule, lines[..k]) + (if Hits(env, rule, lines[k]) then [] else [lines[k]])
  {
    assert lines[..k + 1][..k] == lines[..k];
  }

  // ---------------------------------------------------------------- the oldest entry

  /** The running minimum of the eviction's first pass: text and timestamp. */
  function Oldest(env: Env, lines: seq<string>): (string, string) {
    if lines == [] then ("", SENTINEL)
    else
      var best := Oldest(env, lines[..|lines| - 1]);
      var last := lines[|lines| - 1];
      var p := Last(last, '|');
      if 0 <= p && env.when(last[p + 1..]) < env.when(best.1) then (last[..p], last[p + 1..]) else best
  }

  function OldestEntry(env: Env, lines: seq<string>): string {
    var best := Oldest(env, lines);
    Line(best.0, best.1)
  }

  /** The instant of the text after the last bar. */
  function Instant(env: Env, line: string): int {
    env.when(line[Last(line, '|') + 1..])
  }

  /** Line k is the first of the smallest timestamp. */
  ghost predicate FirstMinimum(env: Env, lines: seq<string>, k: nat) {
    && k < |lines|
    && (forall j :: 0 <= j < |lines| ==> Instant(env, lines[k]) <= Instant(env, lines[j]))
    && (forall j :: 0 <= j < k ==> Instant(env, lines[k]) < Instant(env, lines[j]))
  }

  lemma Rejoin(line: string)
    requires 0 <= Last(line, '|')
    ensures var p := Last(line, '|'); Line(line[..p], line[p + 1..]) == line
  {
  }

  /** One step of the first pass. */
  lemma OldestStep(env: Env, front: seq<string>, last: string)
    requires Stamped(env, last)
    ensures var best, next := Oldest(env, front), Oldest(env, front + [last]);
            if Instant(env, last) < env.when(best.1)
            then env.when(next.1) == Instant(env, last) && Line(next.0, next.1) == last
            else next == best
  {
    assert (front + [last])[..|front|] == front;
    Rejoin(last);
  }

  lemma OldestOfOne(env: Env, line: string)
    requires Stamped(env, line)
    ensures OldestEntry(env, [line]) == line && FirstMinimum(env, [line], 0)
    ensures env.when(Oldest(env, [line]).1) == Instant(env, line)
  {
    assert [] + [line] == [line] && Oldest(env, []) == ("", SENTINEL);
    OldestStep(env, [], line);
  }

  lemma MinimumStep(env: Env, front: seq<string>, last: string, k: nat) returns (k': nat)
    requires FirstMinimum(env, front, k)
    ensures k' == if Instant(env, last) < Instant(env, front[k]) then |front| else k
    ensures FirstMinimum(env, front + [last], k')
  {
    k' := if Instant(env, last) < Instant(env, front[k]) then |front| else k;
  }

  /** The first pass finds the first line of the smallest timestamp. */
  lemma {:induction false} OldestIsFirstMinimum(env: Env, lines: seq<string>) returns (k: nat)
    requires lines != [] && forall x :: x in lines ==> Stamped(env, x)
    ensures FirstMinimum(env, lines, k) && lines[k] == OldestEntry(env, lines)
    ensures env.when(Oldest(env, lines).1) == Instant(env, lines[k])
  {
    var front, last := lines[..|lines| - 1], lines[|lines| - 1];
    assert lines == front + [last];
    OldestStep(env, front, last);
    if front == [] {
      OldestOfOne(env, last);
      k := 0;
    } else {
      assert forall x :: x in front ==> x in lines;
      var i := OldestIsFirstMinimum(env, front);
      k := MinimumStep(env, front, last, i);
    }
  }

  function RemoveOldest(env: Env, lines: seq<string>): seq<string> {
    Kept(env, ByLine(OldestEntry(env, lines)), lines)
  }

  /** Kept by line, when the line occurs exactly once. */
  lemma {:induction false} KeptOnce(env: Env, lines: seq<string>, k: nat)
    requires k < |lines|
    requires forall j :: 0 <= j < |lines| && j != k ==> lines[j] != lines[k]
    ensures Kept(env, ByLine(lines[k]), lines) == lines[..k] + lines[k + 1..]
  {
    var front := lines[..|lines| - 1];
    if k == |lines| - 1 {
      KeptAll(env, ByLine(lines[k]), front);
      assert lines[..k] + lines[k + 1..] == front;
    } else {
      assert front[k] == lines[k];
      KeptOnce(env, front, k);
      assert lines[..k] + lines[k + 1..] == front[..k] + front[k + 1..] + [lines[|lines| - 1]];
    }
  }

  ghost predicate Distinct(lines: seq<string>) {
    forall i, j :: 0 <= i < j < |lines| ==> lines[i] != lines[j]
  }

  /** Eviction takes out exactly one line, the first of the smallest timestamp, when no
      line occurs twice. */
  lemma EvictionRemovesOne(env: Env, lines: seq<string>) returns (k: nat)
    requires lines != [] && Distinct(lines) && forall x :: x in lines ==> Stamped(env, x)
    ensures FirstMinimum(env, lines, k)
    ensures RemoveOldest(env, lines) == lines[..k] + lines[k + 1..]
  {
    k := OldestIsFirstMinimum(env, lines);
    KeptOnce(env, lines, k);
  }

  /** Without the timestamp assumption the file still shrinks exactly when the entry that
      the first pass assembled is one of the lines. */
  lemma EvictionShrinksIff(env: Env, lines: seq<string>)
    ensures |RemoveOldest(env, lines)| < |lines| <==> OldestEntry(env, lines) in lines
  {
    var rule := ByLine(OldestEntry(env, lines));
    KeptAndGone(env, rule, lines);
    KeptMembers(env, rule, lines);
    if OldestEntry(env, lines) in lines {
      assert OldestEntry(env, lines) in Gone(env, rule, lines);
    } else {
      KeptAll(env, rule, lines);
    }
  }
}
