/** Sequences of string transfers, and what a completion mark that is left up does to them. */
module CanSequences {
  import opened CanStrings
  import opened CanFacts
  import opened CanTransfers

  // ---------------------------------------------------------------- sequences of transfers

  ghost predicate AllSendable(ts: seq<Transfer>) {
    forall k :: 0 <= k < |ts| ==> Sendable(ts[k]) && Flagged(ts[k].target)
  }

  function ReceiveAll(s: Receiver, ts: seq<Transfer>): Receiver
    requires forall k :: 0 <= k < |ts| ==> Sendable(ts[k])
    decreases |ts|
  {
    if ts == [] then s else ReceiveAll(Receive(s, Frames(ts[0])), ts[1..])
  }

  /** What matters of a receiver between transfers. */
  datatype Between = Between(flags: set<Target>, prev: int, delivered: seq<(Target, seq<byte>)>)

  function Summary(s: Receiver): Between {
    Between(s.flags, s.prev, s.delivered)
  }

  function AfterOne(b: Between, t: Transfer): Between
    requires Broker !in b.flags && Flagged(t.target) && Text(t.text)
  {
    var flags := b.flags + {t.target};
    if b.prev == 6 then Between(flags, 5 + Continuations(t.text), b.delivered)
    else Between(flags - {FirstOf(flags)}, 5 + Continuations(t.text), b.delivered + [(FirstOf(flags), t.text)])
  }

  ghost function AfterAll(b: Between, ts: seq<Transfer>): Between
    requires Broker !in b.flags && AllSendable(ts)
    decreases |ts|
  {
    if ts == [] then b else AfterAll(AfterOne(b, ts[0]), ts[1..])
  }

  lemma OneSummary(s: Receiver, t: Transfer)
    requires Quiet(s) && Sendable(t) && Flagged(t.target)
    ensures Quiet(Receive(s, Frames(t))) && Summary(Receive(s, Frames(t))) == AfterOne(Summary(s), t)
  {
    QuietOutcome(s, t);
  }

  /** Any sequence of transfers, exactly: which texts arrive, at which targets, and which flags
      stay up. */
  lemma {:induction false} TransfersOutcome(s: Receiver, ts: seq<Transfer>)
    requires Quiet(s) && AllSendable(ts)
    ensures Quiet(ReceiveAll(s, ts)) && Summary(ReceiveAll(s, ts)) == AfterAll(Summary(s), ts)
    decreases |ts|
  {
    if ts != [] {
      OneSummary(s, ts[0]);
      TransfersOutcome(Receive(s, Frames(ts[0])), ts[1..]);
    }
  }

  function Texts(ts: seq<Transfer>): seq<(Target, seq<byte>)> {
    if ts == [] then [] else [(ts[0].target, ts[0].text)] + Texts(ts[1..])
  }

  lemma {:induction false} TextsLength(ts: seq<Transfer>)
    ensures |Texts(ts)| == |ts|
  {
    if ts != [] {
      TextsLength(ts[1..]);
    }
  }

  lemma {:induction false} NoMoreThanSent(b: Between, ts: seq<Transfer>)
    requires Broker !in b.flags && AllSendable(ts)
    ensures |AfterAll(b, ts).delivered| <= |b.delivered| + |ts| - (if b.prev == 6 && ts != [] then 1 else 0)
    decreases |ts|
  {
    if ts != [] {
      NoMoreThanSent(AfterOne(b, ts[0]), ts[1..]);
    }
  }

  ghost predicate NoShortBefore(ts: seq<Transfer>) {
    forall k :: 0 <= k < |ts| - 1 ==> |ts[k].text| >= 12
  }

  lemma TextsFirst(ts: seq<Transfer>, before: seq<(Target, seq<byte>)>)
    requires ts != []
    ensures before + Texts(ts) == before + [(ts[0].target, ts[0].text)] + Texts(ts[1..])
  {
  }

  lemma NoShortFirst(ts: seq<Transfer>)
    requires |ts| > 1
    ensures NoShortBefore(ts) <==> |ts[0].text| >= 12 && NoShortBefore(ts[1..])
  {
    if |ts[0].text| >= 12 && NoShortBefore(ts[1..]) {
      forall k | 0 <= k < |ts| - 1 ensures |ts[k].text| >= 12 {
        assert k > 0 ==> ts[k] == ts[1..][k - 1];
      }
    }
  }

  lemma {:induction false} AllArriveIff(b: Between, ts: seq<Transfer>)
    requires b.flags == {} && b.prev != 6 && AllSendable(ts)
    ensures AfterAll(b, ts).delivered == b.delivered + Texts(ts) <==> NoShortBefore(ts)
    decreases |ts|
  {
    if ts != [] {
      var b1 := AfterOne(b, ts[0]);
      assert b.flags + {ts[0].target} == {ts[0].target} && {ts[0].target} - {ts[0].target} == {};
      assert b1 == Between({}, 5 + Continuations(ts[0].text), b.delivered + [(ts[0].target, ts[0].text)]);
      TextsFirst(ts, b.delivered);
      if |ts| > 1 {
        NoShortFirst(ts);
        if |ts[0].text| >= 12 {
          AllArriveIff(b1, ts[1..]);
        } else {
          NoMoreThanSent(b1, ts[1..]);
          TextsLength(ts);
        }
      } else {
        assert ts[1..] == [];
      }
    }
  }

  /** From an idle receiver all texts of a sequence arrive, in order and at their own targets,
      exactly when the last number is not 6 and no text but the last is shorter than 12 bytes. */
  lemma TransfersRoundTripIff(s: Receiver, ts: seq<Transfer>)
    requires Idle(s) && AllSendable(ts)
    ensures ReceiveAll(s, ts).delivered == s.delivered + Texts(ts) <==>
            ts == [] || (s.prev != 6 && forall k :: 0 <= k < |ts| - 1 ==> |ts[k].text| >= 12)
  {
    TransfersOutcome(s, ts);
    if s.prev == 6 {
      NoMoreThanSent(Summary(s), ts);
      TextsLength(ts);
    } else {
      AllArriveIff(Summary(s), ts);
    }
  }

  /** A swallowed transfer displaces the next one: if that one is let through, its text goes to
      whichever of the two targets comes first, and the other flag stays up. */
  lemma SwallowedThenNext(s: Receiver, t: Transfer, u: Transfer)
    requires Idle(s) && s.prev == 6 && Sendable(t) && Flagged(t.target) && Sendable(u) && Flagged(u.target)
    ensures var flags := {t.target} + {u.target};
            var r := ReceiveAll(s, [t, u]);
            if |t.text| < 12 then r.flags == flags && r.delivered == s.delivered
            else r.flags == flags - {FirstOf(flags)} && r.delivered == s.delivered + [(FirstOf(flags), u.text)]
  {
    TransfersOutcome(s, [t, u]);
    assert [t, u][1..] == [u] && [u][1..] == [];
    var b1 := AfterOne(Summary(s), t);
    assert b1.flags == {t.target};
    assert AfterAll(Summary(s), [t, u]) == AfterAll(b1, [u]) == AfterOne(b1, u);
  }

  // ---------------------------------------------------------------- any sequence whatever

  /** What of a receiver does not depend on the bytes in its buffer: flags, last number, mark, and
      the targets that strings went to. */
  datatype Shape = Shape(flags: set<Target>, prev: int, give: bool, targets: seq<Target>)

  function TargetsOf(delivered: seq<(Target, seq<byte>)>): (r: seq<Target>)
    ensures |r| == |delivered|
  {
    seq(|delivered|, i requires 0 <= i < |delivered| => delivered[i].0)
  }

  function ShapeOf(s: Receiver): Shape {
    Shape(s.flags, s.prev, s.give, TargetsOf(s.delivered))
  }

  /** How many strings a transfer completes. */
  function Completions(flags: set<Target>, prev: int, give: bool, x: seq<byte>): nat {
    if prev == 6 then (if give && |x| > 11 then 1 else 0)
    else if give && |x| > 11 && flags != {} then 2
    else 1
  }

  /** The first n flagged targets, and the flags that stay up. */
  function Served(flags: set<Target>, n: nat): seq<Target>
    requires Broker !in flags
    decreases n
  {
    if n == 0 || flags == {} then [] else [FirstOf(flags)] + Served(flags - {FirstOf(flags)}, n - 1)
  }

  function Unserved(flags: set<Target>, n: nat): (r: set<Target>)
    requires Broker !in flags
    ensures r <= flags
    decreases n
  {
    if n == 0 || flags == {} then flags else Unserved(flags - {FirstOf(flags)}, n - 1)
  }

  function ShapeAfter(b: Shape, t: Transfer): (r: Shape)
    requires Broker !in b.flags && Text(t.text)
    ensures Broker !in r.flags
  {
    var flags := if Flagged(t.target) then b.flags + {t.target} else b.flags;
    var n := Completions(flags, b.prev, b.give, t.text);
    var served := Served(flags, n);
    Shape(Unserved(flags, n), 5 + Continuations(t.text), if n == 0 then b.give else |served| < n,
          b.targets + (if Flagged(t.target) then [] else [Broker]) + served)
  }

  ghost function ShapeAfterAll(b: Shape, ts: seq<Transfer>): Shape
    requires Broker !in b.flags && forall k :: 0 <= k < |ts| ==> Sendable(ts[k])
    decreases |ts|
  {
    assert ts != [] ==> Sendable(ts[0]);
    if ts == [] then b else ShapeAfterAll(ShapeAfter(b, ts[0]), ts[1..])
  }

  lemma {:induction false} HandedServes(flags: set<Target>, strings: seq<seq<byte>>)
    requires Broker !in flags
    ensures TargetsOf(Handed(flags, strings)) == Served(flags, |strings|)
    ensures Waiting(flags, strings) == Unserved(flags, |strings|)
    decreases |strings|
  {
    if strings != [] && flags != {} {
      HandedServes(flags - {FirstOf(flags)}, strings[1..]);
      TargetsJoin([(FirstOf(flags), strings[0])], Handed(flags - {FirstOf(flags)}, strings[1..]));
    }
  }

  lemma TargetsJoin(a: seq<(Target, seq<byte>)>, b: seq<(Target, seq<byte>)>)
    ensures TargetsOf(a + b) == TargetsOf(a) + TargetsOf(b)
  {
  }

  lemma PassedCount(s: Receiver, t: Transfer)
    requires Sound(s) && Broker !in s.flags && Sendable(t)
    ensures var h := Opened(s, t.target, t.text);
            && Open(h, t.text)
            && |Passed(h, t.text, t.pad)| == Completions(h.flags, s.prev, s.give, t.text)
  {
    TransferOutcome(s, t);
  }

  lemma OneShape(s: Receiver, t: Transfer)
    requires Sound(s) && Broker !in s.flags && Sendable(t)
    ensures Sound(Receive(s, Frames(t))) && ShapeOf(Receive(s, Frames(t))) == ShapeAfter(ShapeOf(s), t)
  {
    TransferOutcome(s, t);
    PassedCount(s, t);
    var h, r := Opened(s, t.target, t.text), Receive(s, Frames(t));
    var strings := Passed(h, t.text, t.pad);
    var handed := Handed(h.flags, strings);
    HandedServes(h.flags, strings);
    OpenedTargets(s, t);
    TargetsJoin(h.delivered, handed);
    assert |handed| == |TargetsOf(handed)|;
  }

  lemma OpenedTargets(s: Receiver, t: Transfer)
    requires Sound(s) && Text(t.text)
    ensures TargetsOf(Opened(s, t.target, t.text).delivered) ==
            TargetsOf(s.delivered) + (if Flagged(t.target) then [] else [Broker])
  {
    if !Flagged(t.target) {
      TargetsJoin(s.delivered, [(Broker, CString(t.text[..4] + s.arr[4..]))]);
    }
  }

  /** Any sequence of transfers, broker strings included, to any receiver: which targets are
      served in which order, which flags stay up, the last number, and whether the mark is up. */
  lemma {:induction false} AnyTransfersOutcome(s: Receiver, ts: seq<Transfer>)
    requires Sound(s) && Broker !in s.flags && forall k :: 0 <= k < |ts| ==> Sendable(ts[k])
    ensures Sound(ReceiveAll(s, ts)) && ShapeOf(ReceiveAll(s, ts)) == ShapeAfterAll(ShapeOf(s), ts)
    decreases |ts|
  {
    if ts != [] {
      OneShape(s, ts[0]);
      AnyTransfersOutcome(Receive(s, Frames(ts[0])), ts[1..]);
    }
  }

  // ---------------------------------------------------------------- after a broker string

  /** Two transfers in a row: after a broker string longer than 11 bytes, a text longer than 11
      bytes arrives with the broker's tail in place of its own; so it arrives whole exactly when
      the two tails are equal. */
  lemma BrokerThenText(s: Receiver, b: Transfer, t: Transfer)
    requires Idle(s) && s.prev != 6 && Sendable(b) && b.target == Broker && |b.text| > 11
    requires Sendable(t) && Flagged(t.target) && |t.text| > 11
    ensures var r := ReceiveAll(s, [b, t]);
            var early := t.text[..11] + b.text[11..];
            && r.delivered == Receive(s, Frames(b)).delivered + [(t.target, early)]
            && r.give && r.flags == {}
            && (early == t.text <==> b.text[11..] == t.text[11..])
  {
    BrokerMarksIff(s, b);
    var mid := Receive(s, Frames(b));
    MarkedAlone(mid, t);
    ReceiveBoth(s, b, t);
    BrokerTail(mid.arr, b.text, t.text);
    TailsIff(t.text, b.text);
  }

  /** Mark and waiting target do meet: a short text after a short broker string is swallowed, and
      leaves its flag beside the mark. */
  lemma MarkMeetsFlag(s: Receiver, b: Transfer, t: Transfer)
    requires Idle(s) && s.prev != 6 && Sendable(b) && b.target == Broker && |b.text| <= 11
    requires Sendable(t) && Flagged(t.target) && |t.text| <= 11
    ensures var r := ReceiveAll(s, [b, t]);
            r.give && r.flags == {t.target} && r.prev == 6 && r.delivered == Receive(s, Frames(b)).delivered
  {
    BrokerMarksIff(s, b);
    TransferOutcome(Receive(s, Frames(b)), t);
    ReceiveBoth(s, b, t);
  }

  lemma ReceiveBoth(s: Receiver, b: Transfer, t: Transfer)
    requires Sendable(b) && Sendable(t)
    ensures ReceiveAll(s, [b, t]) == Receive(Receive(s, Frames(b)), Frames(t))
  {
    assert [b, t][1..] == [t] && [t][1..] == [];
    assert ReceiveAll(Receive(s, Frames(b)), [t]) == Receive(Receive(s, Frames(b)), Frames(t));
  }

  // ---------------------------------------------------------------- the mark for ever

  /** The buffer holds this text and its terminator; behind byte 11 it is a C string. */
  ghost predicate Holds(s: Receiver, y: seq<byte>) {
    11 < |y| < |s.arr| && s.arr[..|y|] == y && s.arr[|y|] == 0 && 0 !in y[11..]
  }

  /** The mark is up, no target waits, and the next continuation is let through. */
  ghost predicate LeftMarked(s: Receiver, y: seq<byte>) {
    Sound(s) && s.give && s.flags == {} && s.prev != 6 && Holds(s, y)
  }

  /** What the next transfer hands over when the buffer holds y: its own beginning and the rest of y. */
  function Mixed(y: seq<byte>, t: Transfer): (Target, seq<byte>)
    requires |y| > 11 && |t.text| > 11
  {
    if Flagged(t.target) then (t.target, t.text[..11] + y[11..]) else (Broker, CString(t.text[..4] + y[4..]))
  }

  /** What the buffer holds then: the new text, its beginning split if it went to the versions. */
  function HeldAfter(y: seq<byte>, t: Transfer): (r: seq<byte>)
    requires |y| > 11 && |t.text| > 11
    ensures |r| == |t.text|
  {
    if t.target == Version then Marked(t.text[..11] + y[11..])[..11] + t.text[11..] else t.text
  }

  function MixedAll(y: seq<byte>, ts: seq<Transfer>): seq<(Target, seq<byte>)>
    requires |y| > 11 && forall k :: 0 <= k < |ts| ==> |ts[k].text| > 11
    decreases |ts|
  {
    if ts == [] then [] else [Mixed(y, ts[0])] + MixedAll(HeldAfter(y, ts[0]), ts[1..])
  }

  lemma HoldsSplice(a: seq<byte>, y: seq<byte>, front: seq<byte>)
    requires 11 < |y| < |a| && a[..|y|] == y && a[|y|] == 0 && 0 !in y[11..] && |front| <= 11
    ensures CString(front + a[|front|..]) == CString(front + y[|front|..])
    ensures |front| == 11 && 0 !in front ==> CString(front + a[11..]) == front + y[11..]
  {
    var n, x := |front|, front + y[|front|..];
    assert a[n..|y|] == a[..|y|][n..] == y[n..];
    SplicePrefix(front, a, |y|);
    CStringUpTo(front + a[n..], x);
    if n == 11 && 0 !in front {
      CStringLacksZero(x);
    }
  }

  lemma MixedFlagged(s: Receiver, y: seq<byte>, t: Transfer)
    requires LeftMarked(s, y) && Sendable(t) && Flagged(t.target) && |t.text| > 11
    ensures var r := Receive(s, Frames(t));
            && LeftMarked(r, HeldAfter(y, t)) && r.delivered == s.delivered + [Mixed(y, t)]
  {
    MarkedAlone(s, t);
    HoldsSplice(s.arr, y, t.text[..11]);
    var r := TransferEnds(s, t);
    var h := Opened(s, t.target, t.text);
    assert h.flags == {t.target} && h.flags - {t.target} == {} && h.arr[11..] == s.arr[11..];
    EarlyIsPrefix(h, t.text, t.pad);
    HeldIsRewritten(h, t, y);
    HeldTail(y, t);
  }

  /** The first 11 bytes after a hand-over. */
  lemma FrontAfterConsume(s: Receiver, target: Target)
    requires Sound(s) && |CString(s.arr)| >= 11
    ensures |Consume(s, target).arr| == BUFFER
    ensures Consume(s, target).arr[..11] == if target == Version then Marked(CString(s.arr))[..11] else s.arr[..11]
  {
  }

  lemma HeldIsRewritten(h: Receiver, t: Transfer, y: seq<byte>)
    requires Open(h, t.text) && h.flags == {t.target} && Flagged(t.target) && h.prev != 6
    requires |t.text| > 11 && |y| > 11 && Early(h, t.text, t.pad) == t.text[..11] + h.arr[11..]
    requires CString(t.text[..11] + h.arr[11..]) == t.text[..11] + y[11..]
    ensures Rewritten(h, t.text, t.pad) == HeldAfter(y, t)
  {
    var early := Early(h, t.text, t.pad);
    assert FirstOf(h.flags) == t.target;
    FrontAfterConsume(h.(arr := early), t.target);
    assert early[..11] == t.text[..11];
    assert t.text == t.text[..11] + t.text[11..];
  }

  lemma HeldTail(y: seq<byte>, t: Transfer)
    requires |y| > 11 && |t.text| > 11 && 0 !in t.text
    ensures HeldAfter(y, t)[11..] == t.text[11..] && 0 !in HeldAfter(y, t)[11..]
  {
    assert t.text == t.text[..11] + t.text[11..];
  }

  lemma MixedBroker(s: Receiver, y: seq<byte>, t: Transfer)
    requires LeftMarked(s, y) && Sendable(t) && t.target == Broker && |t.text| > 11
    ensures var r := Receive(s, Frames(t));
            && LeftMarked(r, HeldAfter(y, t)) && r.delivered == s.delivered + [Mixed(y, t)]
  {
    HoldsSplice(s.arr, y, t.text[..4]);
    var r := TransferEnds(s, t);
  }

  lemma MixedOne(s: Receiver, y: seq<byte>, t: Transfer) returns (r: Receiver, held: seq<byte>)
    requires LeftMarked(s, y) && Sendable(t) && |t.text| > 11
    ensures r == Receive(s, Frames(t)) && held == HeldAfter(y, t)
    ensures LeftMarked(r, held) && r.delivered == s.delivered + [Mixed(y, t)]
  {
    r, held := Receive(s, Frames(t)), HeldAfter(y, t);
    if Flagged(t.target) {
      MixedFlagged(s, y, t);
    } else {
      MixedBroker(s, y, t);
    }
  }

  ghost predicate AllLong(ts: seq<Transfer>) {
    forall k :: 0 <= k < |ts| ==> Sendable(ts[k]) && |ts[k].text| > 11
  }

  lemma LongFirst(s: Receiver, y: seq<byte>, ts: seq<Transfer>, before: seq<(Target, seq<byte>)>)
    requires AllLong(ts) && ts != [] && |y| > 11
    ensures Sendable(ts[0]) && |ts[0].text| > 11 && AllLong(ts[1..])
    ensures ReceiveAll(s, ts) == ReceiveAll(Receive(s, Frames(ts[0])), ts[1..])
    ensures before + MixedAll(y, ts) == before + [Mixed(y, ts[0])] + MixedAll(HeldAfter(y, ts[0]), ts[1..])
  {
  }

  /** After the mark was left up with a string longer than 11 bytes in the buffer, it stays up as
      long as only such strings follow, and each of these arrives with the tail of the one before. */
  lemma {:induction false} MixedForEver(s: Receiver, y: seq<byte>, ts: seq<Transfer>) returns (r: Receiver)
    requires LeftMarked(s, y) && AllLong(ts)
    ensures r == ReceiveAll(s, ts) && Sound(r) && r.give && r.flags == {}
    ensures r.delivered == s.delivered + MixedAll(y, ts)
    decreases |ts|
  {
    if ts == [] {
      r := s;
    } else {
      LongFirst(s, y, ts, s.delivered);
      var next, held := MixedOne(s, y, ts[0]);
      r := MixedForEver(next, held, ts[1..]);
    }
  }

  /** A broker string longer than 11 bytes brings an idle receiver there. */
  lemma BrokerThenMixed(s: Receiver, b: Transfer, ts: seq<Transfer>)
    requires Idle(s) && s.prev != 6 && Sendable(b) && b.target == Broker && |b.text| > 11
    requires AllLong(ts)
    ensures var r := ReceiveAll(s, [b] + ts);
            && r.give && r.flags == {}
            && r.delivered == Receive(s, Frames(b)).delivered + MixedAll(b.text, ts)
  {
    BrokerMarksIff(s, b);
    var r := MixedForEver(Receive(s, Frames(b)), b.text, ts);
    assert ([b] + ts)[1..] == ts;
  }
}
