/** Whole string transfers.  Reassembly undoes splitting exactly when the duplicate filter lets
    the first continuation through; a completion mark that is left up spoils what follows. */
module CanTransfers {
  import opened CanStrings
  import opened CanFacts

  // ---------------------------------------------------------------- the first frame

  /** Between transfers: no completion mark.  Flags may be up, of targets whose strings were
      swallowed. */
  ghost predicate Quiet(s: Receiver) {
    Sound(s) && !s.give && Broker !in s.flags
  }

  /** Between transfers, and no target waits. */
  ghost predicate Idle(s: Receiver) {
    Quiet(s) && s.flags == {}
  }

  /** The receiver after the first frame of a text. */
  function Opened(s: Receiver, target: Target, x: seq<byte>): Receiver
    requires Sound(s) && Text(x)
  {
    s.(arr := x[..4] + s.arr[4..], i := 4, length := |x|,
       flags := if Flagged(target) then s.flags + {target} else s.flags,
       delivered := if Flagged(target) then s.delivered else s.delivered + [(Broker, CString(x[..4] + s.arr[4..]))])
  }

  lemma HeaderOpens(s: Receiver, target: Target, x: seq<byte>)
    requires Sound(s) && Text(x)
    ensures OnFrame(s, HeaderFrame(target, x)) == Opened(s, target, x)
  {
    var data := HeaderFrame(target, x);
    assert data[4..8] == x[..4];
    var s0 := s.(i := 0, length := |x|, flags := s.flags + TargetOf(data[1]));
    assert s0.flags == Opened(s, target, x).flags;
    CopyFirstIs(s0, data);
    assert s0.arr[..0] + data[4..8] + s0.arr[4..] == x[..4] + s.arr[4..];
  }

  lemma HeaderAgain(r: Receiver, target: Target, x: seq<byte>)
    requires Sound(r) && Text(x) && Flagged(target) && target in r.flags
    requires r.i == 4 && r.length == |x| && r.arr[..4] == x[..4]
    ensures OnFrame(r, HeaderFrame(target, x)) == r
  {
    HeaderOpens(r, target, x);
    assert x[..4] + r.arr[4..] == r.arr;
    assert r.flags + {target} == r.flags;
  }

  // ---------------------------------------------------------------- frame by frame

  /** A text was opened and nothing followed yet.  Below, texts may hold terminators: they are
      what the buffer makes of a text. */
  ghost predicate Open(h: Receiver, x: seq<byte>) {
    5 <= |x| && Sound(h) && Broker !in h.flags && h.i == 4 && h.length == |x| && h.arr[..4] == x[..4]
  }

  /** Only buffer, index and last number differ. */
  ghost predicate Moved(h: Receiver, r: Receiver, i: nat, prev: int) {
    r == h.(arr := r.arr, i := i, prev := prev) && |r.arr| == |h.arr|
  }

  /** The text was handed to the first flagged target, or, with no flag up, the mark stays up. */
  ghost predicate Completed(h: Receiver, r: Receiver, x: seq<byte>, prev: int)
    requires Broker !in h.flags
  {
    && |r.arr| == |h.arr|
    && if h.flags == {}
       then r == h.(arr := r.arr, i := |x|, give := true, prev := prev)
            && |x| < |r.arr| && r.arr[..|x|] == x && r.arr[|x|] == 0 && r.arr[|x| + 1..] == h.arr[|x| + 1..]
       else r == h.(arr := r.arr, i := |x|, give := false, prev := prev, flags := h.flags - {FirstOf(h.flags)},
                    delivered := h.delivered + [(FirstOf(h.flags), CString(x))])
  }

  /** Where the receiver stands after frame k, when it misses none. */
  ghost predicate Reached(h: Receiver, r: Receiver, x: seq<byte>, k: nat)
    requires Broker !in h.flags
  {
    if k == 0 then r == h
    else if 4 + 7 * k < |x| then
      && Moved(h, r, 4 + 7 * k, 5 + k) && 4 + 7 * k <= |r.arr|
      && r.arr[..4 + 7 * k] == x[..4 + 7 * k] && r.arr[4 + 7 * k..] == h.arr[4 + 7 * k..]
    else Completed(h, r, x, 5 + k)
  }

  lemma ReachedMore(h: Receiver, r: Receiver, x: seq<byte>, pad: byte, k: nat)
    requires Open(h, x) && !h.give && h.prev != 6 && k > 0 && 4 + 7 * k < |x| && Reached(h, r, x, k - 1)
    ensures Reached(h, OnFrame(r, ContinuationFrame(x, k, pad)), x, k)
  {
    var o, data := 4 + 7 * (k - 1), ContinuationFrame(x, k, pad);
    var r0 := r.(prev := data[0]);
    ContinuationBytes(x, k, pad, 7);
    CopyNextShort(r0, data, 0);
    PasteSlices(r.arr, o, data, 1, 7);
    TakeMore(x, o, 7);
    Tails(r.arr, h.arr, o, 7);
  }

  lemma Tails(a: seq<byte>, b: seq<byte>, o: nat, n: nat)
    requires |a| == |b| && o + n <= |a| && a[o..] == b[o..]
    ensures a[o + n..] == b[o + n..]
  {
    assert a[o..][n..] == a[o + n..] && b[o..][n..] == b[o + n..];
  }

  /** The buffer after the continuation that reaches the end of the text. */
  lemma Filled(r: Receiver, x: seq<byte>, pad: byte, k: nat) returns (filled: Receiver)
    requires Sound(r) && k > 0 && r.i == 4 + 7 * (k - 1) < |x| <= 4 + 7 * k && r.length == |x|
    requires r.arr[..r.i] == x[..r.i]
    ensures var data := ContinuationFrame(x, k, pad);
            filled == CopyNext(r.(prev := data[0]), data, 0)
    ensures filled == r.(arr := filled.arr, i := |x|, give := true, prev := 5 + k) && Sound(filled)
    ensures CString(filled.arr) == CString(x) && filled.arr[..|x|] == x && filled.arr[|x|] == 0
    ensures filled.arr[|x| + 1..] == r.arr[|x| + 1..]
  {
    var o, data := 4 + 7 * (k - 1), ContinuationFrame(x, k, pad);
    var n := |x| - o;
    ContinuationBytes(x, k, pad, n);
    assert x[o..] == x[o..o + n];
    filled := FilledUp(r.(prev := data[0]), x, data, n);
  }

  lemma FilledUp(r: Receiver, x: seq<byte>, data: seq<byte>, n: nat) returns (filled: Receiver)
    requires Sound(r) && |data| == 8 && r.i + n == |x| == r.length && 0 < n <= 7
    requires r.arr[..r.i] == x[..r.i] && data[1..1 + n] == x[r.i..]
    ensures filled == CopyNext(r, data, 0)
    ensures filled == r.(arr := filled.arr, i := |x|, give := true) && |filled.arr| == BUFFER
    ensures CString(filled.arr) == CString(x) && filled.arr[..|x|] == x && filled.arr[|x|] == 0
    ensures filled.arr[|x| + 1..] == r.arr[|x| + 1..]
  {
    filled := CopyNextEnds(r, data, n);
    TextEnds(filled.arr, r.arr[..r.i], data[1..1 + n], x, r.i);
  }

  lemma Completes(h: Receiver, filled: Receiver, x: seq<byte>)
    requires Sound(filled) && |x| < BUFFER && filled.give && Broker !in filled.flags
    requires filled == h.(arr := filled.arr, i := |x|, give := true, prev := filled.prev) && |h.arr| == |filled.arr|
    requires CString(filled.arr) == CString(x) && filled.arr[..|x|] == x && filled.arr[|x|] == 0
    requires filled.arr[|x| + 1..] == h.arr[|x| + 1..]
    ensures Completed(h, Deliver(filled), x, filled.prev)
  {
    if filled.flags == {} {
      DeliverNone(filled, ORDER);
    } else {
      DeliverFirst(filled);
    }
  }

  /** The continuation that reaches the end of the text, when none was missed. */
  lemma Finishes(h: Receiver, r: Receiver, x: seq<byte>, pad: byte, k: nat)
    requires Open(h, x) && Sound(r) && k > 0 && Moved(h, r, 4 + 7 * (k - 1), r.prev) && r.prev != 5 + k
    requires r.i < |x| <= r.i + 7 && r.arr[..r.i] == x[..r.i] && r.arr[r.i..] == h.arr[r.i..]
    ensures Completed(h, OnFrame(r, ContinuationFrame(x, k, pad)), x, 5 + k)
  {
    var filled := Filled(r, x, pad, k);
    Tails(r.arr, h.arr, r.i, |x| + 1 - r.i);
    Completes(h, filled, x);
  }

  lemma ReachedNext(h: Receiver, r: Receiver, x: seq<byte>, pad: byte, k: nat)
    requires Open(h, x) && !h.give && h.prev != 6 && k > 0 && 4 + 7 * (k - 1) < |x| && Reached(h, r, x, k - 1)
    ensures Reached(h, OnFrame(r, ContinuationFrame(x, k, pad)), x, k)
  {
    if 4 + 7 * k < |x| {
      ReachedMore(h, r, x, pad, k);
    } else {
      Finishes(h, r, x, pad, k);
    }
  }

  /** A receiver that missed the first continuation stays one continuation behind. */
  ghost predicate Behind(h: Receiver, r: Receiver, k: nat) {
    if k == 0 then r == h else Moved(h, r, 4 + 7 * (k - 1), 5 + k)
  }

  lemma BehindNext(h: Receiver, r: Receiver, x: seq<byte>, pad: byte, k: nat)
    requires Sound(h) && h.i == 4 && !h.give && h.prev == 6 && h.length == |x|
    requires k > 0 && 4 + 7 * (k - 1) < |x| && Behind(h, r, k - 1)
    ensures Behind(h, OnFrame(r, ContinuationFrame(x, k, pad)), k)
  {
    if k > 1 {
      var data := ContinuationFrame(x, k, pad);
      CopyNextShort(r.(prev := data[0]), data, 0);
    }
  }

  // ---------------------------------------------------------------- with the mark up

  /** A continuation that is let through, when the mark, if up, has no flag to go to: at the
      declared length the first flagged target, if there is one, gets the string. */
  lemma Accepts(s: Receiver, data: seq<byte>) returns (text: seq<byte>)
    requires Sound(s) && Broker !in s.flags && (s.give ==> s.flags == {})
    requires |data| == 8 && data[0] > 5 && data[0] != s.prev
    ensures var r, full := OnFrame(s, data), s.i < s.length <= s.i + 7;
            && |r.arr| == |s.arr|
            && if full && s.flags != {}
               then r == s.(arr := r.arr, i := s.length, prev := data[0], flags := s.flags - {FirstOf(s.flags)},
                            delivered := s.delivered + [(FirstOf(s.flags), text)])
               else r == s.(arr := r.arr, i := Min(s.i + 7, s.length), prev := data[0], give := s.give || full)
  {
    var s0 := s.(prev := data[0]);
    if s.i + 7 < s.length {
      CopyNextShort(s0, data, 0);
    } else if s.i < s.length {
      CopyNextFull(s0, data, 0, s.length - s.i);
    }
    var filled := CopyNext(s0, data, 0);
    text := CString(filled.arr);
    if filled.flags == {} {
      DeliverNone(filled, ORDER);
    } else {
      DeliverFirst(filled);
    }
  }

  /** The buffer at the first continuation that is let through: 7 bytes were put after the first
      four, and the rest is old. */
  function Early(h: Receiver, x: seq<byte>, pad: byte): (a: seq<byte>)
    requires Open(h, x)
    ensures |a| == BUFFER
  {
    x[..4] + Chunk(x, if h.prev == 6 then 11 else 4, pad, 7) + h.arr[11..]
  }

  /** The receiver relieved of mark and flag by the hand-over at that continuation, as if it had
      just been opened. */
  function Relieved(h: Receiver, x: seq<byte>, pad: byte): (r: Receiver)
    requires Open(h, x) && h.flags != {}
    ensures |r.arr| == BUFFER
  {
    Consume(h.(arr := Early(h, x, pad)), FirstOf(h.flags))
  }

  /** What the rest of the text then completes: version splitting may have put terminators into
      the first 11 bytes. */
  function Rewritten(h: Receiver, x: seq<byte>, pad: byte): (y: seq<byte>)
    requires Open(h, x) && h.flags != {} && |x| > 11
    ensures |y| == |x|
  {
    Relieved(h, x, pad).arr[..11] + x[11..]
  }

  /** Where a receiver stands after frame k whose mark was up when the text began. */
  ghost predicate MarkStands(h: Receiver, r: Receiver, x: seq<byte>, pad: byte, k: nat)
    requires Open(h, x)
  {
    if k == 0 || (h.prev == 6 && k == 1) then r == h
    else if h.flags == {} && h.prev == 6 then Moved(h, r, 4 + 7 * (k - 1), 5 + k)
    else if h.flags == {} then r.give && Reached(h.(give := false), r.(give := 4 + 7 * k >= |x|), x, k)
    else if h.prev == 6 then Behind(Relieved(h, x, pad), r, k)
    else if |x| <= 11 then k == 1 && Completed(h, r, x, 6)
    else Reached(Relieved(h, x, pad), r, Rewritten(h, x, pad), k)
  }

  /** With the mark up, a continuation that does not complete the text is handed over. */
  lemma HandsOverEarly(h: Receiver, x: seq<byte>, pad: byte, k: nat)
    requires Open(h, x) && h.give && h.flags != {} && |x| > 11 && k == (if h.prev == 6 then 2 else 1)
    ensures OnFrame(h, ContinuationFrame(x, k, pad)) == Relieved(h, x, pad).(i := 11, prev := 5 + k)
  {
    var data := ContinuationFrame(x, k, pad);
    var h0 := h.(prev := data[0]);
    CopyNextShort(h0, data, 0);
    PasteSlices(h.arr, 4, data, 1, 7);
    var filled := CopyNext(h0, data, 0);
    assert data[1..8] == Chunk(x, 4 + 7 * (k - 1), pad, 7);
    assert filled.arr == filled.arr[..11] + filled.arr[11..];
    assert filled.arr == Early(h, x, pad);
    DeliverFirst(filled);
  }

  lemma SameFrame(x: seq<byte>, y: seq<byte>, pad: byte, k: nat)
    requires |x| == |y| > 11 && x[11..] == y[11..] && 2 <= k <= 250
    ensures ContinuationFrame(x, k, pad) == ContinuationFrame(y, k, pad)
  {
    var o := 4 + 7 * (k - 1);
    var a, b := Chunk(x, o, pad, 7), Chunk(y, o, pad, 7);
    forall j | 0 <= j < 7 ensures a[j] == b[j] {
      if o + j < |x| {
        assert x[o + j] == x[11..][o + j - 11] && y[o + j] == y[11..][o + j - 11];
      }
    }
    assert a == b;
  }

  lemma MarkedNext(h: Receiver, r: Receiver, x: seq<byte>, pad: byte, k: nat)
    requires Open(h, x) && h.give && Sound(r) && k > 0 && 4 + 7 * (k - 1) < |x| && MarkStands(h, r, x, pad, k - 1)
    ensures MarkStands(h, OnFrame(r, ContinuationFrame(x, k, pad)), x, pad, k)
  {
    if k == 1 && h.prev == 6 {
    } else if h.flags == {} && h.prev == 6 {
      var text := Accepts(r, ContinuationFrame(x, k, pad));
    } else if h.flags == {} {
      FrameUnderMark(r.(give := false), ContinuationFrame(x, k, pad));
      assert r == r.(give := true);
      ReachedNext(h.(give := false), r.(give := false), x, pad, k);
    } else if k == (if h.prev == 6 then 2 else 1) && |x| > 11 {
      HandsOverEarly(h, x, pad, k);
    } else if h.prev == 6 {
      BehindNext(Relieved(h, x, pad), r, x, pad, k);
    } else if |x| <= 11 {
      Finishes(h, h, x, pad, k);
    } else {
      RewrittenNext(h, r, x, pad, k);
    }
  }

  lemma RewrittenNext(h: Receiver, r: Receiver, x: seq<byte>, pad: byte, k: nat)
    requires Open(h, x) && h.flags != {} && h.prev != 6 && k > 1 && 11 < |x| && 4 + 7 * (k - 1) < |x|
    requires Reached(Relieved(h, x, pad), r, Rewritten(h, x, pad), k - 1)
    ensures Reached(Relieved(h, x, pad), OnFrame(r, ContinuationFrame(x, k, pad)), Rewritten(h, x, pad), k)
  {
    var y := Rewritten(h, x, pad);
    SameFrame(x, y, pad, k);
    assert y[..4] == Relieved(h, x, pad).arr[..4];
    ReachedNext(Relieved(h, x, pad), r, y, pad, k);
  }

  // ---------------------------------------------------------------- whole transfers

  ghost predicate Stands(h: Receiver, r: Receiver, t: Transfer, k: nat)
    requires Open(h, t.text)
  {
    if h.give then MarkStands(h, r, t.text, t.pad, k)
    else if h.prev == 6 then Behind(h, r, k)
    else Reached(h, r, t.text, k)
  }

  lemma StandsNext(h: Receiver, r: Receiver, t: Transfer, k: nat)
    requires Open(h, t.text) && Sound(r) && k > 0 && 4 + 7 * (k - 1) < |t.text| && Stands(h, r, t, k - 1)
    ensures Stands(h, OnFrame(r, ContinuationFrame(t.text, k, t.pad)), t, k)
  {
    if h.give {
      MarkedNext(h, r, t.text, t.pad, k);
    } else if h.prev == 6 {
      BehindNext(h, r, t.text, t.pad, k);
    } else {
      ReachedNext(h, r, t.text, t.pad, k);
    }
  }

  // ---------------------------------------------------------------- repeated frames

  /** Numbered steps in this order. */
  ghost function Along(step: (Receiver, nat) -> Receiver, s: Receiver, numbers: seq<nat>): Receiver {
    if numbers == [] then s
    else step(Along(step, s, numbers[..|numbers| - 1]), numbers[|numbers| - 1])
  }

  /** Steps 0 to k, each once. */
  ghost function Once(step: (Receiver, nat) -> Receiver, s: Receiver, k: nat): Receiver {
    step(if k == 0 then s else Once(step, s, k - 1), k)
  }

  ghost predicate Steady(step: (Receiver, nat) -> Receiver, k: nat) {
    forall r :: step(step(r, k), k) == step(r, k)
  }

  /** Steps that change nothing when they come again can be repeated at will. */
  lemma {:induction false} RepeatsVanish(step: (Receiver, nat) -> Receiver, s: Receiver, numbers: seq<nat>, n: nat)
    requires numbers != [] && numbers[0] == 0 && numbers[|numbers| - 1] == n
    requires forall k {:trigger Follows(numbers, k)} :: 0 <= k < |numbers| - 1 ==> Follows(numbers, k)
    requires forall k :: 0 < k < |numbers| ==> Steady(step, numbers[k])
    ensures Along(step, s, numbers) == Once(step, s, n)
  {
    var front, last := numbers[..|numbers| - 1], |numbers| - 1;
    if last > 0 {
      forall k | 0 <= k < |front| - 1 ensures Follows(front, k) {
        assert Follows(numbers, k);
      }
      RepeatsVanish(step, s, front, front[|front| - 1]);
      assert Follows(numbers, last - 1) && Steady(step, numbers[last]);
    }
  }

  /** What frame k of a transfer does; frames it does not have do nothing. */
  function Taken(t: Transfer, r: Receiver, k: nat): Receiver {
    if Sound(r) && Text(t.text) && k <= Continuations(t.text)
    then OnFrame(r, FrameNo(t.target, t.text, t.pad, k))
    else r
  }

  function Step(t: Transfer): (Receiver, nat) -> Receiver {
    (r: Receiver, k: nat) => Taken(t, r, k)
  }

  lemma {:induction false} ReceivesAlong(s: Receiver, t: Transfer, n: nat)
    requires Sound(s) && Sendable(t) && n <= |t.numbers|
    ensures Receive(s, Frames(t)[..n]) == Along(Step(t), s, t.numbers[..n])
    decreases n
  {
    if n > 0 {
      ReceivesAlong(s, t, n - 1);
      assert Frames(t)[..n][..n - 1] == Frames(t)[..n - 1] && t.numbers[..n][..n - 1] == t.numbers[..n - 1];
    }
  }

  lemma NumberKept(s: Receiver, data: seq<byte>)
    requires Sound(s) && |data| == 8 && data[0] > 5
    ensures OnFrame(s, data).prev == data[0] && OnFrame(OnFrame(s, data), data) == OnFrame(s, data)
  {
    CopyKeepsFlags(s.(prev := data[0]), data, 0);
  }

  /** A frame that comes again changes nothing. */
  lemma FrameAgain(t: Transfer, k: nat)
    requires k == 0 ==> Flagged(t.target)
    ensures Steady(Step(t), k)
  {
    forall r ensures Taken(t, Taken(t, r, k), k) == Taken(t, r, k) {
      if Sound(r) && Text(t.text) && k <= Continuations(t.text) {
        if k == 0 {
          HeaderOpens(r, t.target, t.text);
          HeaderAgain(Opened(r, t.target, t.text), t.target, t.text);
        } else {
          NumberKept(r, FrameNo(t.target, t.text, t.pad, k));
        }
      }
    }
  }

  /** However often frames come again, a transfer does what its frames do once. */
  lemma TransferOnce(s: Receiver, t: Transfer)
    requires Sound(s) && Sendable(t)
    ensures Receive(s, Frames(t)) == Once(Step(t), s, Continuations(t.text))
  {
    ReceivesAlong(s, t, |t.numbers|);
    assert Frames(t)[..|t.numbers|] == Frames(t) && t.numbers[..|t.numbers|] == t.numbers;
    forall k | 0 < k < |t.numbers| ensures Steady(Step(t), t.numbers[k]) {
      FrameAgain(t, t.numbers[k]);
    }
    RepeatsVanish(Step(t), s, t.numbers, Continuations(t.text));
  }

  /** What holds after step 0 and is kept by every next one. */
  lemma {:induction false} HoldsOnce(step: (Receiver, nat) -> Receiver, s: Receiver, n: nat,
                                     holds: (Receiver, nat) -> bool)
    requires holds(step(s, 0), 0)
    requires forall r, k {:trigger holds(step(r, k), k)} :: 0 < k <= n && holds(r, k - 1) ==> holds(step(r, k), k)
    ensures holds(Once(step, s, n), n)
  {
    if n > 0 {
      HoldsOnce(step, s, n - 1, holds);
      assert holds(step(Once(step, s, n - 1), n), n);
    }
  }

  ghost predicate StandsSound(h: Receiver, t: Transfer, r: Receiver, k: nat) {
    Open(h, t.text) && Sound(r) && Stands(h, r, t, k)
  }

  ghost function Claim(h: Receiver, t: Transfer): (Receiver, nat) -> bool {
    (r: Receiver, k: nat) => StandsSound(h, t, r, k)
  }

  lemma HeaderStands(s: Receiver, h: Receiver, t: Transfer)
    requires Sound(s) && Text(t.text) && h == Opened(s, t.target, t.text) && Open(h, t.text)
    ensures Claim(h, t)(Step(t)(s, 0), 0)
  {
    HeaderOpens(s, t.target, t.text);
  }

  lemma FrameStands(h: Receiver, t: Transfer, r: Receiver, k: nat)
    requires Text(t.text) && 0 < k <= Continuations(t.text) && Claim(h, t)(r, k - 1)
    ensures Claim(h, t)(Step(t)(r, k), k)
  {
    StandsNext(h, r, t, k);
  }

  lemma StandsAt(s: Receiver, h: Receiver, t: Transfer)
    requires Sound(s) && Text(t.text) && h == Opened(s, t.target, t.text) && Open(h, t.text)
    ensures Claim(h, t)(Once(Step(t), s, Continuations(t.text)), Continuations(t.text))
  {
    var step, holds := Step(t), Claim(h, t);
    HeaderStands(s, h, t);
    forall r, k {:trigger holds(step(r, k), k)} | 0 < k <= Continuations(t.text) && holds(r, k - 1)
      ensures holds(step(r, k), k)
    {
      FrameStands(h, t, r, k);
    }
    HoldsOnce(step, s, Continuations(t.text), holds);
  }

  lemma TransferEnds(s: Receiver, t: Transfer) returns (r: Receiver)
    requires Sound(s) && Broker !in s.flags && Sendable(t)
    ensures r == Receive(s, Frames(t)) && Sound(r)
    ensures Open(Opened(s, t.target, t.text), t.text)
    ensures Stands(Opened(s, t.target, t.text), r, t, Continuations(t.text))
  {
    TransferOnce(s, t);
    StandsAt(s, Opened(s, t.target, t.text), t);
    r := Receive(s, Frames(t));
    assert StandsSound(Opened(s, t.target, t.text), t, r, Continuations(t.text));
  }

  /** The strings a transfer completes.  Without the mark it is the text, unless its first
      continuation is swallowed.  With the mark the first continuation that is let through
      completes what the buffer holds by then, and the rest of the text what it holds at its end. */
  ghost function Passed(h: Receiver, x: seq<byte>, pad: byte): seq<seq<byte>>
    requires Open(h, x)
  {
    if !h.give then
      if h.prev == 6 then [] else [x]
    else if |x| <= 11 then
      if h.prev == 6 then [] else [x]
    else if h.prev == 6 || h.flags == {} then [CString(Early(h, x, pad))]
    else [CString(Early(h, x, pad)), CString(Rewritten(h, x, pad))]
  }

  /** Strings go to the flagged targets in order, as many as there are. */
  function Handed(flags: set<Target>, strings: seq<seq<byte>>): seq<(Target, seq<byte>)>
    requires Broker !in flags
    decreases |strings|
  {
    if strings == [] || flags == {} then []
    else [(FirstOf(flags), strings[0])] + Handed(flags - {FirstOf(flags)}, strings[1..])
  }

  function Waiting(flags: set<Target>, strings: seq<seq<byte>>): set<Target>
    requires Broker !in flags
    decreases |strings|
  {
    if strings == [] || flags == {} then flags else Waiting(flags - {FirstOf(flags)}, strings[1..])
  }

  lemma OneHanded(flags: set<Target>, a: seq<byte>)
    requires Broker !in flags && flags != {}
    ensures Handed(flags, [a]) == [(FirstOf(flags), a)] && Waiting(flags, [a]) == flags - {FirstOf(flags)}
  {
    assert [a][1..] == [];
  }

  lemma TwoHanded(flags: set<Target>, a: seq<byte>, b: seq<byte>)
    requires Broker !in flags && flags != {}
    ensures var rest := flags - {FirstOf(flags)};
            && Handed(flags, [a, b]) == [(FirstOf(flags), a)] + (if rest == {} then [] else [(FirstOf(rest), b)])
            && Waiting(flags, [a, b]) == if rest == {} then {} else rest - {FirstOf(rest)}
  {
    var rest := flags - {FirstOf(flags)};
    assert [a, b][1..] == [b];
    if rest != {} {
      OneHanded(rest, b);
    }
  }

  /** What a transfer of any text, its frames in order and each any number of times in a row,
      does to any receiver between transfers, whatever flags and mark are up: which strings
      are handed to which targets, which flags stay up, and whether the mark does. */
  lemma TransferOutcome(s: Receiver, t: Transfer)
    requires Sound(s) && Broker !in s.flags && Sendable(t)
    ensures var r, h := Receive(s, Frames(t)), Opened(s, t.target, t.text);
            && Open(h, t.text)
            && var strings := Passed(h, t.text, t.pad);
            && Sound(r) && r.prev == 5 + Continuations(t.text)
            && r.delivered == h.delivered + Handed(h.flags, strings)
            && r.flags == Waiting(h.flags, strings)
            && (r.give <==> if strings == [] then s.give else |Handed(h.flags, strings)| < |strings|)
  {
    var r := TransferEnds(s, t);
    var h := Opened(s, t.target, t.text);
    CStringLacksZero(t.text);
    if h.flags != {} {
      FlaggedOutcome(h, r, t);
    }
  }

  /** The case with a flag up. */
  lemma FlaggedOutcome(h: Receiver, r: Receiver, t: Transfer)
    requires Open(h, t.text) && Text(t.text) && h.flags != {} && Stands(h, r, t, Continuations(t.text))
    ensures var strings := Passed(h, t.text, t.pad);
            && r.prev == 5 + Continuations(t.text)
            && r.delivered == h.delivered + Handed(h.flags, strings)
            && r.flags == Waiting(h.flags, strings)
            && (r.give <==> if strings == [] then h.give else |Handed(h.flags, strings)| < |strings|)
  {
    CStringLacksZero(t.text);
    OneHanded(h.flags, t.text);
    if |t.text| > 11 {
      OneHanded(h.flags, CString(Early(h, t.text, t.pad)));
      TwoHanded(h.flags, CString(Early(h, t.text, t.pad)), CString(Rewritten(h, t.text, t.pad)));
    }
  }

  /** From a quiet receiver, whatever flags are still up: with last number 6 nothing is handed
      over and one more flag stays up; otherwise the text goes, whole, to the first of the
      flagged targets. */
  lemma QuietOutcome(s: Receiver, t: Transfer)
    requires Quiet(s) && Sendable(t) && Flagged(t.target)
    ensures var r, flags := Receive(s, Frames(t)), s.flags + {t.target};
            && Quiet(r) && r.prev == 5 + Continuations(t.text)
            && if s.prev == 6 then r.flags == flags && r.delivered == s.delivered
               else r.flags == flags - {FirstOf(flags)} && r.delivered == s.delivered + [(FirstOf(flags), t.text)]
  {
    TransferOutcome(s, t);
    OneHanded(s.flags + {t.target}, t.text);
  }

  /** Any text of 5 to 99 bytes, its frames repeated in any way, is delivered whole to its
      target, and to it alone. */
  lemma TransferRoundTrip(s: Receiver, t: Transfer)
    requires Idle(s) && Sendable(t) && Flagged(t.target) && s.prev != 6
    ensures var r := Receive(s, Frames(t));
            && Idle(r) && r.prev == 5 + Continuations(t.text)
            && r.delivered == s.delivered + [(t.target, t.text)]
  {
    QuietOutcome(s, t);
    assert s.flags + {t.target} == {t.target};
    assert {t.target} - {t.target} == {};
  }

  /** From a quiet receiver, a transfer is delivered to its own target exactly when the last
      continuation number seen is not 6 and no earlier target waits. */
  lemma DeliveredIff(s: Receiver, t: Transfer)
    requires Quiet(s) && Sendable(t) && Flagged(t.target)
    ensures Receive(s, Frames(t)).delivered == s.delivered + [(t.target, t.text)] <==>
            s.prev != 6 && FirstOf(s.flags + {t.target}) == t.target
  {
    QuietOutcome(s, t);
    assert forall p: (Target, seq<byte>) :: (s.delivered + [p])[|s.delivered|] == p;
    assert s.delivered + [(t.target, t.text)] != s.delivered by {
      assert |s.delivered + [(t.target, t.text)]| == |s.delivered| + 1;
    }
  }

  // ---------------------------------------------------------------- versions and credentials

  /** Five version numbers joined by commas land in the five version fields, in order. */
  lemma VersionsArrive(s: Receiver, f: Fields, t: Transfer, tokens: seq<seq<byte>>)
    requires Idle(s) && Sendable(t) && s.prev != 6 && t.target == Version
    requires |tokens| == 5 && Parts(tokens) && t.text == Join(tokens)
    requires forall k :: 0 <= k < 5 ==> |tokens[k]| <= 44
    ensures AssignAll(f, Receive(s, Frames(t)).delivered) ==
            AssignAll(f, s.delivered).(hmi := tokens[0], lcu := tokens[1], mcu := tokens[2],
                                       evse0 := tokens[3], evse1 := tokens[4])
  {
    TransferRoundTrip(s, t);
    SplitUndoesJoin(tokens);
    AssignAllSnoc(f, s.delivered, Version, t.text);
    FiveAssigned(AssignAll(f, s.delivered), tokens);
  }

  /** "ssid,password" lands in the two Wi-Fi fields. */
  lemma CredentialsArrive(s: Receiver, f: Fields, t: Transfer, ssid: seq<byte>, password: seq<byte>)
    requires Idle(s) && Sendable(t) && s.prev != 6 && t.target == Wifi
    requires Parts([ssid, password]) && t.text == Join([ssid, password]) && |ssid| <= 49
    ensures AssignAll(f, Receive(s, Frames(t)).delivered) ==
            AssignAll(f, s.delivered).(ssid := ssid, password := password)
  {
    TransferRoundTrip(s, t);
    AssignAllSnoc(f, s.delivered, Wifi, t.text);
    SplitUndoesJoin([ssid, password]);
    assert [ssid, password][1..] == [password];
    assert t.text == ssid + [COMMA] + password;
  }

  // ---------------------------------------------------------------- broker strings

  /** Continuations, neighbours numbered differently. */
  ghost predicate Alternating(conts: seq<seq<byte>>, prev: int) {
    forall k {:trigger Alternates(conts, prev, k)} :: 0 <= k < |conts| ==> Alternates(conts, prev, k)
  }

  ghost predicate Alternates(conts: seq<seq<byte>>, prev: int, k: nat)
    requires k < |conts|
  {
    && |conts[k]| == 8 && conts[k][0] > 5
    && (k == 0 ==> conts[0][0] != prev)
    && (k > 0 ==> conts[k - 1] != [] && conts[k][0] != conts[k - 1][0])
  }

  lemma AlternatingFront(conts: seq<seq<byte>>, prev: int)
    requires conts != [] && Alternating(conts, prev)
    ensures var front, last := conts[..|conts| - 1], conts[|conts| - 1];
            && Alternating(front, prev) && |last| == 8 && last[0] > 5
            && (front == [] ==> last[0] != prev)
            && (front != [] ==> |front[|front| - 1]| == 8 && last[0] != front[|front| - 1][0])
  {
    var front := conts[..|conts| - 1];
    forall k | 0 <= k < |front| ensures Alternates(front, prev, k) {
      assert Alternates(conts, prev, k);
    }
    assert Alternates(conts, prev, |conts| - 1);
    if front != [] {
      assert Alternates(conts, prev, |conts| - 2);
    }
  }

  /** What continuations make of an open text: nothing is handed over before they reach its
      declared length; then the first waiting target gets a string, or, with none waiting, the
      mark stays up. */
  ghost predicate Ran(h: Receiver, r: Receiver, n: nat, text: seq<byte>)
    requires Broker !in h.flags
  {
    && r.length == h.length && r.i == Min(h.i + 7 * n, h.length)
    && if h.i + 7 * n < h.length then !r.give && r.flags == h.flags && r.delivered == h.delivered
       else if h.flags == {} then r.give && r.flags == {} && r.delivered == h.delivered
       else !r.give && r.flags == h.flags - {FirstOf(h.flags)}
            && r.delivered == h.delivered + [(FirstOf(h.flags), text)]
  }

  lemma {:induction false} RunsThrough(h: Receiver, conts: seq<seq<byte>>) returns (text: seq<byte>)
    requires Sound(h) && Broker !in h.flags && !h.give && h.i < h.length && Alternating(conts, h.prev)
    ensures var r := Receive(h, conts);
            && Sound(r) && Ran(h, r, |conts|, text)
            && (conts == [] ==> r.prev == h.prev)
            && (conts != [] ==> conts[|conts| - 1] != [] && r.prev == conts[|conts| - 1][0])
  {
    text := [];
    if conts != [] {
      var front, last := conts[..|conts| - 1], conts[|conts| - 1];
      AlternatingFront(conts, h.prev);
      text := RunsThrough(h, front);
      var r := Receive(h, front);
      var handed := Accepts(r, last);
      if r.i < r.length {
        text := handed;
      }
    }
  }

  lemma {:induction false} ReceiveAfter(s: Receiver, header: seq<byte>, conts: seq<seq<byte>>)
    requires Sound(s) && Acceptable(header)
    ensures Receive(s, [header] + conts) == Receive(OnFrame(s, header), conts)
  {
    var all := [header] + conts;
    if conts == [] {
      assert all == [header] && all[..0] == [];
      assert Receive(s, []) == s;
    } else {
      ReceiveAfter(s, header, conts[..|conts| - 1]);
      assert all[..|all| - 1] == [header] + conts[..|conts| - 1];
    }
  }

  /** A broker string of any length, from whatever frames, to a receiver without mark: as soon as
      its continuations reach its declared length the first target that still waits gets a string
      that was not meant for it; and the completion mark is left up exactly when none waits. */
  lemma BrokerLeavesMark(s: Receiver, header: seq<byte>, conts: seq<seq<byte>>) returns (text: seq<byte>)
    requires Quiet(s) && StringHeader(header) && header[1] == BROKER && 4 < Declared(header) < BUFFER
    requires Alternating(conts, s.prev)
    ensures var r, full := Receive(s, [header] + conts), 4 + 7 * |conts| >= Declared(header);
            && Sound(r) && (r.give <==> full && s.flags == {})
            && r.flags == (if full && s.flags != {} then s.flags - {FirstOf(s.flags)} else s.flags)
            && r.delivered == OnFrame(s, header).delivered +
                              if full && s.flags != {} then [(FirstOf(s.flags), text)] else []
  {
    var h := BrokerOpens(s, header);
    ReceiveAfter(s, header, conts);
    text := RunsThrough(h, conts);
  }

  lemma BrokerOpens(s: Receiver, header: seq<byte>) returns (h: Receiver)
    requires Quiet(s) && StringHeader(header) && header[1] == BROKER && 4 < Declared(header) < BUFFER
    ensures h == OnFrame(s, header) && Sound(h) && h.flags == s.flags && !h.give
    ensures h.i == 4 && h.length == Declared(header) && h.prev == s.prev
  {
    CopyFirstIs(s.(i := 0, length := Declared(header), flags := s.flags + TargetOf(header[1])), header);
    assert TargetOf(header[1]) == {};
    h := OnFrame(s, header);
  }

  /** A text's beginning put over a buffer makes the text exactly when the buffer holds its rest. */
  lemma SpliceIff(front: seq<byte>, a: seq<byte>, x: seq<byte>)
    requires |front| <= |x| < |a| && 0 !in x
    ensures var n := |front|;
            CString(front + a[n..]) == x <==> front == x[..n] && a[n..|x|] == x[n..] && a[|x|] == 0
  {
    CStringEqualsIff(front + a[|front|..], x);
    SplicePrefix(front, a, |x|);
    JoinedIff(front, a[|front|..|x|], x);
  }

  lemma SplicePrefix(front: seq<byte>, a: seq<byte>, m: nat)
    requires |front| <= m < |a|
    ensures |front + a[|front|..]| == |a| && (front + a[|front|..])[m] == a[m]
    ensures (front + a[|front|..])[..m] == front + a[|front|..m]
  {
  }

  lemma JoinedIff(front: seq<byte>, back: seq<byte>, x: seq<byte>)
    requires |front| + |back| == |x|
    ensures front + back == x <==> front == x[..|front|] && back == x[|front|..]
  {
    assert x == x[..|front|] + x[|front|..];
    assert (front + back)[..|front|] == front && (front + back)[|front|..] == back;
  }

  /** The broker is taken from the buffer at the first frame: it is stored whole exactly when the
      buffer already held the rest of it. */
  lemma BrokerStoredIff(s: Receiver, x: seq<byte>)
    requires Sound(s) && Text(x)
    ensures var stored := CString(x[..4] + s.arr[4..]);
            && OnFrame(s, HeaderFrame(Broker, x)).delivered == s.delivered + [(Broker, stored)]
            && (stored == x <==> s.arr[4..|x|] == x[4..] && s.arr[|x|] == 0)
  {
    HeaderOpens(s, Broker, x);
    SpliceIff(x[..4], s.arr, x);
  }

  /** The same of a sender's own broker transfer: it leaves the mark up exactly when the duplicate
      filter lets its first continuation through and no target waits; a target that waits after a
      swallowed text gets the broker string instead. */
  lemma BrokerMarksIff(s: Receiver, t: Transfer)
    requires Quiet(s) && Sendable(t) && t.target == Broker
    ensures var r, stored := Receive(s, Frames(t)), s.delivered + [(Broker, CString(t.text[..4] + s.arr[4..]))];
            && Sound(r) && r.prev == 5 + Continuations(t.text)
            && (r.give <==> s.prev != 6 && s.flags == {})
            && (if s.prev == 6 || s.flags == {} then r.flags == s.flags && r.delivered == stored
                else r.flags == s.flags - {FirstOf(s.flags)} && r.delivered == stored + [(FirstOf(s.flags), t.text)])
            && (r.give ==> r.arr[..|t.text|] == t.text && r.arr[|t.text|] == 0)
  {
    var r := TransferEnds(s, t);
    CStringLacksZero(t.text);
  }

  // ---------------------------------------------------------------- texts after the mark

  lemma EarlyIsPrefix(h: Receiver, x: seq<byte>, pad: byte)
    requires Open(h, x) && h.prev != 6 && |x| > 11
    ensures Early(h, x, pad) == x[..11] + h.arr[11..]
  {
    assert Chunk(x, 4, pad, 7) == x[4..11];
  }

  /** No comma among the first 11 bytes follows something else. */
  ghost predicate LeadingCommas(x: seq<byte>)
    requires |x| > 11
  {
    forall j :: 0 <= j < 11 ==> !EndsPart(x, j)
  }

  lemma SplitAt(a: seq<byte>, x: seq<byte>, j: nat)
    requires j < 11 <= |CString(a)| && 11 < |x| && a[..11] == x[..11]
    ensures Marked(CString(a))[j] == if EndsPart(x, j) then 0 else x[j]
  {
    assert a[..11][j] == x[..11][j] && (j > 0 ==> a[..11][j - 1] == x[..11][j - 1]);
    MarkedAt(CString(a), j);
  }

  /** What version splitting leaves of a text's beginning. */
  lemma SplitFront(a: seq<byte>, x: seq<byte>)
    requires 11 <= |a| && 11 < |x| && a[..11] == x[..11] && 0 !in x
    ensures var s := CString(a);
            |s| >= 11 && (Marked(s)[..11] == x[..11] <==> LeadingCommas(x))
  {
    CStringAtLeast(a, 11);
    var m := Marked(CString(a));
    forall j | 0 <= j < 11 ensures m[j] == if EndsPart(x, j) then 0 else x[j] {
      SplitAt(a, x, j);
    }
    if LeadingCommas(x) {
      assert m[..11] == x[..11];
    } else {
      var j :| 0 <= j < 11 && EndsPart(x, j);
      assert m[..11][j] == 0 && x[..11][j] == x[j];
    }
  }

  /** What is handed over second is the whole text, unless splitting the first string for the
      versions put a terminator into it. */
  lemma RewrittenIff(h: Receiver, x: seq<byte>, pad: byte)
    requires Open(h, x) && h.flags != {} && h.prev != 6 && |x| > 11 && 0 !in x
    ensures CString(Rewritten(h, x, pad)) == x <==> Version !in h.flags || LeadingCommas(x)
  {
    var y, early := Rewritten(h, x, pad), Early(h, x, pad);
    EarlyIsPrefix(h, x, pad);
    assert early[..11] == x[..11];
    SplitFront(early, x);
    assert y[..11] == if Version in h.flags then Marked(CString(early))[..11] else x[..11];
    WholeIff(y, x);
    JoinedIff(y[..11], x[11..], x);
  }

  lemma WholeIff(y: seq<byte>, x: seq<byte>)
    requires |y| == |x| && 0 !in x
    ensures CString(y) == x <==> y == x
  {
    CStringLacksZero(x);
    assert y[..|x|] == y;
  }

  /** The text is among what its transfer hands to its target. */
  ghost predicate Arrives(s: Receiver, t: Transfer)
    requires Sendable(t)
  {
    var r := Receive(s, Frames(t));
    s.delivered <= r.delivered && (t.target, t.text) in r.delivered[|s.delivered|..]
  }

  lemma ArrivesIff(s: Receiver, t: Transfer)
    requires Sound(s) && Broker !in s.flags && Sendable(t) && Flagged(t.target)
    ensures Open(Opened(s, t.target, t.text), t.text)
    ensures Arrives(s, t) <==>
            (t.target, t.text) in Handed(s.flags + {t.target}, Passed(Opened(s, t.target, t.text), t.text, t.pad))
  {
    TransferOutcome(s, t);
    var handed := Handed(s.flags + {t.target}, Passed(Opened(s, t.target, t.text), t.text, t.pad));
    assert (s.delivered + handed)[|s.delivered|..] == handed;
  }

  /** Just one flagged target comes before this one. */
  predicate Second(flags: set<Target>, target: Target)
    requires Broker !in flags && flags != {}
  {
    var rest := flags - {FirstOf(flags)};
    rest != {} && FirstOf(rest) == target
  }

  /** With the mark up, whatever other targets wait: a text whose own target comes first arrives
      whole exactly when it fits the first continuation, or what the buffer still holds behind
      that spells its rest; after a last number 6 the text must moreover repeat itself, because
      its first continuation is swallowed.  A text with just one target before its own arrives
      when it is longer than that and was not split on the way, and behind two it never does. */
  lemma WholeDespiteMarkIff(s: Receiver, t: Transfer)
    requires Sound(s) && s.give && Broker !in s.flags && Sendable(t) && Flagged(t.target)
    ensures var x, flags := t.text, s.flags + {t.target};
            Arrives(s, t) <==>
            if FirstOf(flags) != t.target then
              s.prev != 6 && |x| > 11 && Second(flags, t.target) && (Version in flags ==> LeadingCommas(x))
            else if s.prev != 6 then |x| <= 11 || (s.arr[11..|x|] == x[11..] && s.arr[|x|] == 0)
            else |x| > 11 && Chunk(x, 11, t.pad, 7) == x[4..11] && s.arr[11..|x|] == x[11..] && s.arr[|x|] == 0
  {
    ArrivesIff(s, t);
    var h, x := Opened(s, t.target, t.text), t.text;
    if |x| <= 11 {
      OneHanded(h.flags, x);
    } else {
      EarlyIff(s, t);
      OneHanded(h.flags, CString(Early(h, x, t.pad)));
      if s.prev != 6 {
        RewrittenIff(h, x, t.pad);
        TwoHanded(h.flags, CString(Early(h, x, t.pad)), CString(Rewritten(h, x, t.pad)));
      }
    }
  }

  /** With no other target waiting, to arrive is to be all that is handed over. */
  lemma ArrivesAlone(s: Receiver, t: Transfer)
    requires Sound(s) && s.flags == {} && Sendable(t) && Flagged(t.target)
    ensures Arrives(s, t) <==> Receive(s, Frames(t)).delivered == s.delivered + [(t.target, t.text)]
  {
    ArrivesIff(s, t);
    TransferOutcome(s, t);
    var handed := Handed(s.flags + {t.target}, Passed(Opened(s, t.target, t.text), t.text, t.pad));
    AtMostOne(s.flags + {t.target}, t.target, Passed(Opened(s, t.target, t.text), t.text, t.pad));
    assert (s.delivered + handed)[|s.delivered|..] == handed;
    assert (s.delivered + [(t.target, t.text)])[|s.delivered|..] == [(t.target, t.text)];
  }

  lemma AtMostOne(flags: set<Target>, target: Target, strings: seq<seq<byte>>)
    requires flags == {target} && target != Broker
    ensures |Handed(flags, strings)| <= 1
  {
    assert flags - {target} == {};
  }

  lemma EarlyIff(s: Receiver, t: Transfer)
    requires Sound(s) && Broker !in s.flags && Sendable(t) && |t.text| > 11
    requires Open(Opened(s, t.target, t.text), t.text)
    ensures var x := t.text;
            CString(Early(Opened(s, t.target, x), x, t.pad)) == x <==>
            (s.prev == 6 ==> Chunk(x, 11, t.pad, 7) == x[4..11]) && s.arr[11..|x|] == x[11..] && s.arr[|x|] == 0
  {
    var h, x := Opened(s, t.target, t.text), t.text;
    assert h.arr[11..] == s.arr[11..];
    if s.prev != 6 {
      EarlyIsPrefix(h, x, t.pad);
      SpliceIff(x[..11], s.arr, x);
    } else {
      SpliceIff(x[..4] + Chunk(x, 11, t.pad, 7), s.arr, x);
      FrontIff(x, Chunk(x, 11, t.pad, 7));
    }
  }

  lemma FrontIff(x: seq<byte>, chunk: seq<byte>)
    requires |x| > 11 && |chunk| == 7
    ensures x[..4] + chunk == x[..11] <==> chunk == x[4..11]
  {
    assert x[..11] == x[..4] + x[4..11];
    assert (x[..4] + chunk)[4..] == chunk && x[..11][4..] == x[4..11];
  }

  /** The mark and no waiting target, the ordinary case after a broker string. */
  lemma MarkedAlone(s: Receiver, t: Transfer)
    requires Sound(s) && s.give && s.flags == {} && s.prev != 6
    requires Sendable(t) && Flagged(t.target) && |t.text| > 11
    ensures var r := Receive(s, Frames(t));
            && r.give && r.flags == {}
            && r.delivered == s.delivered + [(t.target, CString(t.text[..11] + s.arr[11..]))]
  {
    TransferOutcome(s, t);
    var h := Opened(s, t.target, t.text);
    assert h.flags == {t.target} && h.flags - {t.target} == {} && h.arr[11..] == s.arr[11..];
    EarlyIsPrefix(h, t.text, t.pad);
    TwoHanded(h.flags, CString(Early(h, t.text, t.pad)), CString(Rewritten(h, t.text, t.pad)));
  }

  lemma TailsIff(x: seq<byte>, b: seq<byte>)
    requires |x| > 11 && |b| > 11
    ensures x[..11] + b[11..] == x <==> b[11..] == x[11..]
  {
    assert x == x[..11] + x[11..];
    assert (x[..11] + b[11..])[11..] == b[11..];
  }

  lemma BrokerTail(a: seq<byte>, b: seq<byte>, x: seq<byte>)
    requires |a| == BUFFER && 11 < |b| < BUFFER && 0 !in b && 0 !in x && |x| >= 11
    requires a[..|b|] == b && a[|b|] == 0
    ensures CString(x[..11] + a[11..]) == x[..11] + b[11..]
  {
    var early := x[..11] + b[11..];
    assert a[11..|b|] == a[..|b|][11..] == b[11..];
    assert (x[..11] + a[11..])[..|b|] == x[..11] + a[11..|b|];
    CStringEqualsIff(x[..11] + a[11..], early);
  }
}
