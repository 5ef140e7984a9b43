/** The byte loops of the string receiver in closed form, and the strings they make. */
module CanFacts {
  import opened CanStrings

  // ---------------------------------------------------------------- strings

  lemma {:induction false} CStringIs(a: seq<byte>, n: nat)
    requires n < |a| && a[n] == 0 && 0 !in a[..n]
    ensures CString(a) == a[..n]
  {
    if n > 0 {
      assert a[0] == a[..n][0];
      assert a[1..][..n - 1] == a[..n][1..];
      CStringIs(a[1..], n - 1);
    }
  }

  lemma {:induction false} CStringLacksZero(a: seq<byte>)
    requires 0 !in a
    ensures CString(a) == a
  {
    if a != [] { CStringLacksZero(a[1..]); }
  }

  lemma {:induction false} CStringAtLeast(a: seq<byte>, n: nat)
    requires n <= |a| && 0 !in a[..n]
    ensures |CString(a)| >= n
  {
    if n > 0 {
      assert a[0] == a[..n][0] && a[1..][..n - 1] == a[..n][1..];
      CStringAtLeast(a[1..], n - 1);
    }
  }

  /** A string that is followed by a terminator. */
  lemma {:induction false} CStringUpTo(a: seq<byte>, x: seq<byte>)
    requires |x| < |a| && a[..|x|] == x && a[|x|] == 0
    ensures CString(a) == CString(x)
  {
    if x != [] {
      assert a[0] == a[..|x|][0];
      assert a[1..][..|x| - 1] == a[..|x|][1..];
      CStringUpTo(a[1..], x[1..]);
    }
  }

  lemma {:induction false} TokenLengthIs(s: seq<byte>, n: nat)
    requires n <= |s| && COMMA !in s[..n] && (n < |s| ==> s[n] == COMMA)
    ensures TokenLength(s) == n
  {
    if n > 0 {
      assert s[0] == s[..n][0];
      assert s[1..][..n - 1] == s[..n][1..];
      TokenLengthIs(s[1..], n - 1);
    }
  }

  ghost predicate Parts(tokens: seq<seq<byte>>) {
    forall k :: 0 <= k < |tokens| ==> tokens[k] != [] && COMMA !in tokens[k]
  }

  /** The text before the first comma is a part, and that comma becomes the terminator. */
  lemma {:induction false} TokenMarked(rest: seq<byte>, n: nat)
    requires rest != [] && rest[0] != COMMA && n == TokenLength(rest) < |rest|
    ensures Marked(rest) == rest[..n] + ([0] + Marked(rest[n + 1..]))
  {
  }

  lemma {:induction false} TokenFound(rest: seq<byte>, n: nat)
    requires rest != [] && rest[0] != COMMA && n == TokenLength(rest) < |rest|
    ensures Tokens(rest) == [rest[..n]] + Tokens(rest[n + 1..])
  {
  }

  lemma PartAhead(part: seq<byte>, rest: seq<byte>)
    requires part != [] && COMMA !in part
    ensures Tokens(part + [COMMA] + rest) == [part] + Tokens(rest)
  {
    var s := part + [COMMA] + rest;
    assert s[..|part|] == part && s[|part| + 1..] == rest && s[0] == part[0];
    TokenLengthIs(s, |part|);
    TokenFound(s, |part|);
  }

  lemma PartAlone(part: seq<byte>)
    requires part != [] && COMMA !in part
    ensures Tokens(part) == [part]
  {
    assert part[..|part|] == part;
    TokenLengthIs(part, |part|);
  }

  /** Splitting at commas undoes joining with commas. */
  lemma {:induction false} SplitUndoesJoin(tokens: seq<seq<byte>>)
    requires Parts(tokens)
    ensures Tokens(Join(tokens)) == tokens
  {
    if |tokens| == 1 {
      PartAlone(tokens[0]);
    } else if |tokens| > 1 {
      SplitUndoesJoin(tokens[1..]);
      PartAhead(tokens[0], Join(tokens[1..]));
    }
  }

  /** A comma that follows something else. */
  predicate EndsPart(s: seq<byte>, j: nat)
    requires j < |s|
  {
    j > 0 && s[j] == COMMA && s[j - 1] != COMMA
  }

  /** strtok overwrites exactly these. */
  lemma {:induction false} MarkedAt(s: seq<byte>, j: nat)
    requires j < |s|
    ensures Marked(s)[j] == if EndsPart(s, j) then 0 else s[j]
    decreases |s|
  {
    var n := TokenLength(s);
    if s[0] == COMMA {
      if j > 0 {
        MarkedAt(s[1..], j - 1);
        EndsLater(s, 1, j);
      }
    } else if j > n {
      MarkedAt(s[n + 1..], j - n - 1);
      MarkedBehind(s, n, j);
      EndsLater(s, n + 1, j);
    } else {
      MarkedHere(s, j);
    }
  }

  lemma MarkedHere(s: seq<byte>, j: nat)
    requires s != [] && s[0] != COMMA && j <= TokenLength(s) && j < |s|
    ensures Marked(s)[j] == if EndsPart(s, j) then 0 else s[j]
  {
    var n := TokenLength(s);
    InPart(s, n, j);
    if n < |s| {
      TokenMarked(s, n);
      IndexFront(s[..n], Marked(s[n + 1..]), j);
    } else {
      PartMarked(s);
    }
  }

  lemma InPart(s: seq<byte>, n: nat, j: nat)
    requires 0 < n <= |s| && j <= n && j < |s| && COMMA !in s[..n] && (n < |s| ==> s[n] == COMMA)
    ensures EndsPart(s, j) <==> j == n
  {
    assert j < n ==> s[..n][j] == s[j];
    assert s[..n][n - 1] == s[n - 1];
  }

  lemma PartMarked(s: seq<byte>)
    requires s != [] && s[0] != COMMA && TokenLength(s) == |s|
    ensures Marked(s) == s
  {
    assert s[..|s|] == s;
  }

  lemma IndexFront(a: seq<byte>, b: seq<byte>, j: nat)
    requires j <= |a|
    ensures (a + ([0] + b))[j] == if j < |a| then a[j] else 0
  {
  }

  lemma MarkedBehind(s: seq<byte>, n: nat, j: nat)
    requires s != [] && s[0] != COMMA && n == TokenLength(s) < j < |s|
    ensures Marked(s)[j] == Marked(s[n + 1..])[j - n - 1]
  {
    TokenMarked(s, n);
    IndexBehind(s[..n], Marked(s[n + 1..]), j);
  }

  lemma IndexBehind(a: seq<byte>, b: seq<byte>, j: nat)
    requires |a| < j <= |a| + |b|
    ensures (a + ([0] + b))[j] == b[j - |a| - 1]
  {
  }

  /** Behind a comma nothing depends on what came before it. */
  lemma EndsLater(s: seq<byte>, o: nat, j: nat)
    requires 0 < o <= j < |s| && s[o - 1] == COMMA
    ensures EndsPart(s, j) == EndsPart(s[o..], j - o)
  {
  }

  // ---------------------------------------------------------------- frame by frame

  lemma {:induction false} CopyFirstIs(s: Receiver, data: seq<byte>)
    requires Sound(s) && |data| == 8 && s.i <= 4 <= s.length
    ensures CopyFirst(s, data) == s.(arr := s.arr[..s.i] + data[4 + s.i..8] + s.arr[4..], i := 4)
    decreases 4 - s.i
  {
    if s.i < 4 {
      var s1 := s.(arr := s.arr[s.i := data[s.i + 4]], i := s.i + 1);
      CopyFirstIs(s1, data);
      assert s1.arr[..s1.i] + data[4 + s1.i..8] + s1.arr[4..] == s.arr[..s.i] + data[4 + s.i..8] + s.arr[4..];
    } else {
      assert s.arr[..4] + data[8..8] + s.arr[4..] == s.arr;
    }
  }

  /** a with n bytes of data written over it from position k on, one after the other. */
  function Paste(a: seq<byte>, k: nat, data: seq<byte>, from: nat, n: nat): (b: seq<byte>)
    requires from + n <= |data| && k + n <= |a|
    ensures |b| == |a|
    decreases n
  {
    if n == 0 then a else Paste(a[k := data[from]], k + 1, data, from + 1, n - 1)
  }

  lemma UpdateSlices(a: seq<byte>, k: nat, b: byte, n: nat)
    requires n > 0 && k + n <= |a|
    ensures a[k := b][..k + 1] == a[..k] + [b] && a[k := b][k + n..] == a[k + n..]
  {
  }

  lemma {:induction false} PasteSlices(a: seq<byte>, k: nat, data: seq<byte>, from: nat, n: nat)
    requires from + n <= |data| && k + n <= |a|
    ensures Paste(a, k, data, from, n)[..k + n] == a[..k] + data[from..from + n]
    ensures Paste(a, k, data, from, n)[k + n..] == a[k + n..]
    decreases n
  {
    if n > 0 {
      var a1 := a[k := data[from]];
      PasteSlices(a1, k + 1, data, from + 1, n - 1);
      UpdateSlices(a, k, data[from], n);
      assert data[from..from + n] == [data[from]] + data[from + 1..from + n];
    }
  }

  /** A continuation that stays short of the declared length. */
  lemma {:induction false} CopyNextShort(s: Receiver, data: seq<byte>, j: nat)
    requires Sound(s) && |data| == 8 && j <= 7 && s.i + (7 - j) < s.length
    ensures CopyNext(s, data, j) == s.(arr := Paste(s.arr, s.i, data, j + 1, 7 - j), i := s.i + (7 - j))
    decreases 7 - j
  {
    if j < 7 {
      CopyNextShort(Put(s, data[j + 1]), data, j + 1);
    }
  }

  /** A continuation that reaches the declared length. */
  lemma {:induction false} CopyNextFull(s: Receiver, data: seq<byte>, j: nat, n: nat)
    requires Sound(s) && |data| == 8 && 0 < n <= 7 - j && s.i + n == s.length
    ensures CopyNext(s, data, j) ==
            s.(arr := Paste(s.arr, s.i, data, j + 1, n)[s.length := 0], i := s.length, give := true)
    decreases n
  {
    if n == 1 {
      assert CopyNext(s, data, j) == Put(s, data[j + 1]);
    } else {
      CopyNextFull(Put(s, data[j + 1]), data, j + 1, n - 1);
    }
  }

  /** The same slice by slice. */
  lemma CopyNextEnds(s: Receiver, data: seq<byte>, n: nat) returns (r: Receiver)
    requires Sound(s) && |data| == 8 && 0 < n <= 7 && s.i + n == s.length
    ensures r == CopyNext(s, data, 0) == s.(arr := r.arr, i := s.length, give := true) && |r.arr| == BUFFER
    ensures r.arr[..s.length] == s.arr[..s.i] + data[1..1 + n] && r.arr[s.length] == 0
    ensures r.arr[s.length + 1..] == s.arr[s.length + 1..]
  {
    var pasted := Paste(s.arr, s.i, data, 1, n);
    PasteSlices(s.arr, s.i, data, 1, n);
    Terminated(pasted, s.arr, s.length);
    CopyNextFull(s, data, 0, n);
    r := s.(arr := pasted[s.length := 0], i := s.length, give := true);
  }

  lemma Terminated(pasted: seq<byte>, a: seq<byte>, m: nat)
    requires |pasted| == |a| && m < |a| && pasted[m..] == a[m..]
    ensures pasted[m := 0][..m] == pasted[..m] && pasted[m := 0][m + 1..] == a[m + 1..]
  {
    assert pasted[m := 0][m + 1..] == pasted[m..][1..] && a[m + 1..] == a[m..][1..];
  }

  /** Writing the last bytes of a text after its beginning gives the text. */
  lemma TextEnds(b: seq<byte>, front: seq<byte>, back: seq<byte>, x: seq<byte>, o: nat)
    requires o <= |x| < |b| && front == x[..o] && back == x[o..]
    requires b[..|x|] == front + back && b[|x|] == 0
    ensures b[..|x|] == x && CString(b) == CString(x)
  {
    assert x == x[..o] + x[o..];
    CStringUpTo(b, x);
  }

  /** The bytes of continuation k. */
  lemma ContinuationBytes(x: seq<byte>, k: nat, pad: byte, m: nat)
    requires 1 <= k <= 250 && m <= 7 && 4 + 7 * (k - 1) + m <= |x|
    ensures ContinuationFrame(x, k, pad)[1..1 + m] == x[4 + 7 * (k - 1)..4 + 7 * (k - 1) + m]
  {
    var o, data := 4 + 7 * (k - 1), ContinuationFrame(x, k, pad);
    assert data[1..] == Chunk(x, o, pad, 7);
    assert data[1..1 + m] == data[1..][..m];
  }

  lemma {:induction false} DeliverNone(s: Receiver, order: seq<Target>)
    requires Sound(s) && s.flags == {}
    ensures DeliverTo(s, order) == s
  {
    if order != [] {
      DeliverNone(s, order[1..]);
    }
  }

  lemma {:induction false} CopyNextMark(s: Receiver, data: seq<byte>, j: nat)
    requires Sound(s) && |data| == 8 && j <= 7
    ensures CopyNext(s.(give := true), data, j) == CopyNext(s, data, j).(give := true)
    decreases 7 - j
  {
    if j < 7 && s.i < s.length {
      CopyNextMark(Put(s, data[j + 1]), data, j + 1);
      assert Put(s.(give := true), data[j + 1]) == Put(s, data[j + 1]).(give := true);
    }
  }

  /** With no flag up a continuation does the same under the mark as without it. */
  lemma FrameUnderMark(s: Receiver, data: seq<byte>)
    requires Sound(s) && s.flags == {} && |data| == 8 && data[0] > 5
    ensures OnFrame(s.(give := true), data) == OnFrame(s, data).(give := true)
  {
    var s0 := s.(prev := data[0]);
    CopyNextMark(s0, data, 0);
    CopyKeepsFlags(s0, data, 0);
    DeliverNone(CopyNext(s0, data, 0), ORDER);
    DeliverNone(CopyNext(s0, data, 0).(give := true), ORDER);
  }

  lemma {:induction false} CopyKeepsFlags(s: Receiver, data: seq<byte>, j: nat)
    requires Sound(s) && |data| == 8 && j <= 7
    ensures CopyNext(s, data, j).prev == s.prev && CopyNext(s, data, j).flags == s.flags
    decreases 7 - j
  {
    if j < 7 && s.i < s.length {
      CopyKeepsFlags(Put(s, data[j + 1]), data, j + 1);
    }
  }

  lemma AssignAllSnoc(f: Fields, delivered: seq<(Target, seq<byte>)>, target: Target, text: seq<byte>)
    ensures AssignAll(f, delivered + [(target, text)]) == Assign(AssignAll(f, delivered), target, text)
  {
    assert (delivered + [(target, text)])[..|delivered|] == delivered;
  }

  lemma FiveAssigned(f: Fields, tokens: seq<seq<byte>>)
    requires |tokens| == 5 && forall k :: 0 <= k < 5 ==> |tokens[k]| <= 44
    ensures AssignVersions(f, tokens, 0) ==
            f.(hmi := tokens[0], lcu := tokens[1], mcu := tokens[2], evse0 := tokens[3], evse1 := tokens[4])
  {
    var f1 := f.(hmi := tokens[0]);
    var f2 := f1.(lcu := tokens[1]);
    var f3 := f2.(mcu := tokens[2]);
    var f4 := f3.(evse0 := tokens[3]);
    assert AssignVersions(f, tokens, 0) == AssignVersions(f1, tokens[1..], 1);
    assert tokens[1..][1..] == tokens[2..] && tokens[2..][1..] == tokens[3..] && tokens[3..][1..] == tokens[4..];
    assert AssignVersions(f1, tokens[1..], 1) == AssignVersions(f2, tokens[2..], 2);
    assert AssignVersions(f2, tokens[2..], 2) == AssignVersions(f3, tokens[3..], 3);
    assert AssignVersions(f3, tokens[3..], 3) == AssignVersions(f4, tokens[4..], 4);
    assert tokens[4..][1..] == [];
  }

  lemma TakeMore(x: seq<byte>, o: nat, n: nat)
    requires o + n <= |x|
    ensures x[..o] + x[o..o + n] == x[..o + n]
  {
  }

  lemma CStringEqualsIff(a: seq<byte>, x: seq<byte>)
    requires |x| < |a| && 0 !in x
    ensures CString(a) == x <==> a[..|x|] == x && a[|x|] == 0
  {
    if a[..|x|] == x && a[|x|] == 0 {
      CStringIs(a, |x|);
    }
  }

  /** The flagged target that comes first in the order of the hand-over. */
  function FirstOf(flags: set<Target>): (target: Target)
    requires flags != {} && Broker !in flags
    ensures target in flags
  {
    if Version in flags then Version
    else if OcppUrl in flags then OcppUrl
    else if Wifi in flags then Wifi
    else if Serial2 in flags then Serial2
    else
      assert forall t :: t in flags ==> t == DateTime;
      DateTime
  }

  lemma {:induction false} DeliverPast(s: Receiver, k: nat)
    requires Sound(s) && k <= 5 && forall j :: 0 <= j < k ==> ORDER[j] !in s.flags
    ensures DeliverTo(s, ORDER) == DeliverTo(s, ORDER[k..])
  {
    if k > 0 {
      DeliverPast(s, k - 1);
      assert ORDER[k - 1..][0] == ORDER[k - 1] && ORDER[k - 1..][1..] == ORDER[k..];
    } else {
      assert ORDER[0..] == ORDER;
    }
  }

  lemma DeliverAt(s: Receiver, k: nat)
    requires Sound(s) && k < 5 && ORDER[k] in s.flags && forall j :: 0 <= j < k ==> ORDER[j] !in s.flags
    ensures DeliverTo(s, ORDER) == Consume(s, ORDER[k])
  {
    DeliverPast(s, k);
    assert ORDER[k..][0] == ORDER[k];
  }

  lemma DeliverFirst(s: Receiver)
    requires Sound(s) && s.flags != {} && Broker !in s.flags
    ensures DeliverTo(s, ORDER) == Consume(s, FirstOf(s.flags))
  {
    var target := FirstOf(s.flags);
    match target
    case Version => DeliverAt(s, 0);
    case OcppUrl => DeliverAt(s, 1);
    case Wifi => DeliverAt(s, 2);
    case Serial2 => DeliverAt(s, 3);
    case DateTime => DeliverAt(s, 4);
  }
}
