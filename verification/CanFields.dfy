/** Where received strings land: parameter numbers, the order of the hand-over, the parts between
    commas, and the fields with their sizes. */
module CanFields {
  import opened CanStrings
  import opened CanFacts
  import opened CanTransfers

  // ---------------------------------------------------------------- first frames

  /** The parameter number of a first frame decides which flag goes up; 7 is the broker, which has
      none. */
  lemma HeaderRaises(s: Receiver, data: seq<byte>)
    requires Sound(s) && StringHeader(data) && Declared(data) < BUFFER
    ensures data[1] in {4, 5, 6, 7, 8, 10}
    ensures OnFrame(s, data).flags == s.flags + match data[1]
              case 4 => {Version}
              case 5 => {OcppUrl}
              case 6 => {Wifi}
              case 8 => {Serial2}
              case 10 => {DateTime}
              case _ => {}
  {
    CopyKeepsTheRest(s.(i := 0, length := Declared(data), flags := s.flags + TargetOf(data[1])), data);
  }

  lemma {:induction false} CopyKeepsTheRest(s: Receiver, data: seq<byte>)
    requires Sound(s) && |data| == 8 && s.i <= 4
    ensures var r := CopyFirst(s, data);
            && r == s.(arr := r.arr, i := r.i) && s.i <= r.i <= 4
            && (s.i == s.length ==> r == s)
    decreases 4 - s.i
  {
    if s.i < 4 && s.i < s.length {
      CopyKeepsTheRest(s.(arr := s.arr[s.i := data[s.i + 4]], i := s.i + 1), data);
    }
  }

  /** Waiting targets are served in this order: versions, OCPP URL, Wi-Fi, second serial number,
      date and time. */
  lemma HandOverOrder(s: Receiver)
    requires Sound(s) && s.give && s.flags != {} && Broker !in s.flags
    ensures Deliver(s).flags ==
            if Version in s.flags then s.flags - {Version}
            else if OcppUrl in s.flags then s.flags - {OcppUrl}
            else if Wifi in s.flags then s.flags - {Wifi}
            else if Serial2 in s.flags then s.flags - {Serial2}
            else s.flags - {DateTime}
  {
    DeliverFirst(s);
  }

  // ---------------------------------------------------------------- parts between commas

  /** A comma separates the parts before it from the parts after it. */
  lemma {:induction false} TokensSplit(a: seq<byte>, b: seq<byte>)
    ensures Tokens(a + [COMMA] + b) == Tokens(a) + Tokens(b)
    decreases |a|
  {
    var s := a + [COMMA] + b;
    if a == [] {
      assert s[1..] == b;
    } else if a[0] == COMMA {
      assert s[1..] == a[1..] + [COMMA] + b;
      TokensSplit(a[1..], b);
    } else {
      var n := TokenLength(a);
      if n < |a| {
        TokensSplit(a[n + 1..], b);
        AtComma(a, n);
        SplitAtPart(a, b, a[..n], a[n + 1..]);
      } else {
        assert a[..n] == a;
        SplitLastPart(a, b);
      }
    }
  }

  lemma CommasAssociate(part: seq<byte>, rest: seq<byte>, b: seq<byte>)
    ensures part + [COMMA] + rest + [COMMA] + b == part + [COMMA] + (rest + [COMMA] + b)
  {
  }

  lemma SplitBehindPart(part: seq<byte>, rest: seq<byte>, tail: seq<byte>, b: seq<byte>)
    requires part != [] && COMMA !in part && Tokens(tail) == Tokens(rest) + Tokens(b)
    ensures Tokens(part + [COMMA] + tail) == Tokens(part + [COMMA] + rest) + Tokens(b)
  {
    PartAhead(part, rest);
    PartAhead(part, tail);
    PartsAppend(part, Tokens(rest), Tokens(b), Tokens(tail));
  }

  lemma PartsAppend(part: seq<byte>, a: seq<seq<byte>>, b: seq<seq<byte>>, both: seq<seq<byte>>)
    requires both == a + b
    ensures [part] + both == [part] + a + b
  {
  }

  lemma AtComma(a: seq<byte>, n: nat)
    requires n < |a| && a[n] == COMMA
    ensures a == a[..n] + [COMMA] + a[n + 1..]
  {
  }

  lemma SplitAtPart(a: seq<byte>, b: seq<byte>, part: seq<byte>, rest: seq<byte>)
    requires part != [] && COMMA !in part && a == part + [COMMA] + rest
    requires Tokens(rest + [COMMA] + b) == Tokens(rest) + Tokens(b)
    ensures Tokens(a + [COMMA] + b) == Tokens(a) + Tokens(b)
  {
    CommasAssociate(part, rest, b);
    SplitBehindPart(part, rest, rest + [COMMA] + b, b);
  }

  lemma SplitLastPart(a: seq<byte>, b: seq<byte>)
    requires a != [] && COMMA !in a
    ensures Tokens(a + [COMMA] + b) == Tokens(a) + Tokens(b)
  {
    PartAhead(a, b);
    PartAlone(a);
  }

  // ---------------------------------------------------------------- fields

  /** The first n bytes, or all of them. */
  predicate IsCut(r: seq<byte>, s: seq<byte>, n: nat) {
    r <= s && |r| == Min(|s|, n)
  }

  predicate Becomes(new_: seq<byte>, old_: seq<byte>, tokens: seq<seq<byte>>, k: nat, n: nat) {
    if k < |tokens| then IsCut(new_, tokens[k], n) else new_ == old_
  }

  /** The parts go to the five version fields in this order, 44 bytes of each; a sixth is ignored,
      and a field without a part stays. */
  lemma VersionFields(f: Fields, text: seq<byte>)
    ensures var g, tokens := Assign(f, Version, text), Tokens(text);
            && Becomes(g.hmi, f.hmi, tokens, 0, 44) && Becomes(g.lcu, f.lcu, tokens, 1, 44)
            && Becomes(g.mcu, f.mcu, tokens, 2, 44) && Becomes(g.evse0, f.evse0, tokens, 3, 44)
            && Becomes(g.evse1, f.evse1, tokens, 4, 44)
            && g == f.(hmi := g.hmi, lcu := g.lcu, mcu := g.mcu, evse0 := g.evse0, evse1 := g.evse1)
  {
    VersionsFrom(f, Tokens(text), 0);
  }

  lemma {:induction false} VersionsFrom(f: Fields, tokens: seq<seq<byte>>, k: nat)
    ensures var g := AssignVersions(f, tokens, k);
            && (k <= 0 < k + |tokens| ==> IsCut(g.hmi, tokens[0 - k], 44))
            && (!(k <= 0 < k + |tokens|) ==> g.hmi == f.hmi)
            && (k <= 1 < k + |tokens| ==> IsCut(g.lcu, tokens[1 - k], 44))
            && (!(k <= 1 < k + |tokens|) ==> g.lcu == f.lcu)
            && (k <= 2 < k + |tokens| ==> IsCut(g.mcu, tokens[2 - k], 44))
            && (!(k <= 2 < k + |tokens|) ==> g.mcu == f.mcu)
            && (k <= 3 < k + |tokens| ==> IsCut(g.evse0, tokens[3 - k], 44))
            && (!(k <= 3 < k + |tokens|) ==> g.evse0 == f.evse0)
            && (k <= 4 < k + |tokens| ==> IsCut(g.evse1, tokens[4 - k], 44))
            && (!(k <= 4 < k + |tokens|) ==> g.evse1 == f.evse1)
            && g == f.(hmi := g.hmi, lcu := g.lcu, mcu := g.mcu, evse0 := g.evse0, evse1 := g.evse1)
    decreases |tokens|
  {
    if tokens != [] {
      VersionsFrom(AssignVersion(f, k, tokens[0]), tokens[1..], k + 1);
    }
  }

  /** The first part of the first 99 bytes is the ssid, 49 bytes of it; the second the password. */
  lemma WifiFields(f: Fields, text: seq<byte>)
    ensures exists head :: IsCut(head, text, 99) &&
              var g, tokens := Assign(f, Wifi, text), Tokens(head);
              && Becomes(g.ssid, f.ssid, tokens, 0, 49) && Becomes(g.password, f.password, tokens, 1, 99)
              && g == f.(ssid := g.ssid, password := g.password)
  {
    var head := Cut(text, 99);
    assert IsCut(head, text, 99);
  }

  /** The others go whole into one field each, as far as they fit. */
  lemma OtherFields(f: Fields, text: seq<byte>)
    ensures var g := Assign(f, OcppUrl, text); IsCut(g.ocppUrl, text, 99) && g == f.(ocppUrl := g.ocppUrl)
    ensures var g := Assign(f, Broker, text); IsCut(g.broker, text, 99) && g == f.(broker := g.broker)
    ensures var g := Assign(f, Serial2, text); IsCut(g.serial2, text, 25) && g == f.(serial2 := g.serial2)
    ensures var g := Assign(f, DateTime, text); IsCut(g.dateTime, text, 24) && g == f.(dateTime := g.dateTime)
  {
  }

  /** From an idle receiver whose last number is not 6: the OCPP URL lands whole in its field. */
  lemma UrlArrives(s: Receiver, f: Fields, t: Transfer)
    requires Idle(s) && Sendable(t) && s.prev != 6 && t.target == OcppUrl
    ensures AssignAll(f, Receive(s, Frames(t)).delivered) == AssignAll(f, s.delivered).(ocppUrl := t.text)
  {
    TransferRoundTrip(s, t);
    AssignAllSnoc(f, s.delivered, OcppUrl, t.text);
    OtherFields(AssignAll(f, s.delivered), t.text);
  }

  /** The second serial number, 25 bytes of it. */
  lemma SerialArrives(s: Receiver, f: Fields, t: Transfer)
    requires Idle(s) && Sendable(t) && s.prev != 6 && t.target == Serial2
    ensures var g := AssignAll(f, Receive(s, Frames(t)).delivered);
            g == AssignAll(f, s.delivered).(serial2 := g.serial2) && IsCut(g.serial2, t.text, 25)
  {
    TransferRoundTrip(s, t);
    AssignAllSnoc(f, s.delivered, Serial2, t.text);
    OtherFields(AssignAll(f, s.delivered), t.text);
  }

  /** Date and time, 24 bytes of it. */
  lemma DateTimeArrives(s: Receiver, f: Fields, t: Transfer)
    requires Idle(s) && Sendable(t) && s.prev != 6 && t.target == DateTime
    ensures var g := AssignAll(f, Receive(s, Frames(t)).delivered);
            g == AssignAll(f, s.delivered).(dateTime := g.dateTime) && IsCut(g.dateTime, t.text, 24)
  {
    TransferRoundTrip(s, t);
    AssignAllSnoc(f, s.delivered, DateTime, t.text);
    OtherFields(AssignAll(f, s.delivered), t.text);
  }

  /** The broker's field holds, from its first frame on, the first four bytes and what the buffer
      held behind them. */
  lemma BrokerField(s: Receiver, f: Fields, x: seq<byte>)
    requires Sound(s) && Text(x)
    ensures var g := AssignAll(f, OnFrame(s, HeaderFrame(Broker, x)).delivered);
            && g == AssignAll(f, s.delivered).(broker := g.broker)
            && IsCut(g.broker, CString(x[..4] + s.arr[4..]), 99)
            && (s.arr[4..|x|] == x[4..] && s.arr[|x|] == 0 ==> g.broker == x)
  {
    BrokerStoredIff(s, x);
    var stored := CString(x[..4] + s.arr[4..]);
    AssignAllSnoc(f, s.delivered, Broker, stored);
    OtherFields(AssignAll(f, s.delivered), stored);
  }

  // ---------------------------------------------------------------- strings of one frame

  lemma ShortCopied(s: Receiver, data: seq<byte>) returns (r: Receiver, x: seq<byte>)
    requires Sound(s) && StringHeader(data) && 0 < Declared(data) <= 4
    ensures r == CopyFirst(s.(i := 0, length := Declared(data), flags := s.flags + TargetOf(data[1])), data)
    ensures x == data[4..4 + Declared(data)] && |r.arr| == BUFFER && r.arr[..|x|] == x
    ensures r == s.(arr := r.arr, i := |x|, length := |x|, flags := s.flags + TargetOf(data[1]))
  {
    x := data[4..4 + Declared(data)];
    var s0 := s.(i := 0, length := Declared(data), flags := s.flags + TargetOf(data[1]));
    r := CopyFirst(s0, data);
    CopyShort(s0, data);
    assert s0.arr[..0] + x == x;
  }

  lemma TerminatorEnds(a: seq<byte>, x: seq<byte>)
    requires |x| < |a| && a[..|x|] == x && 0 !in x
    ensures a[|x| := 0][..|x|] == x && CString(a[|x| := 0]) == x
  {
    assert a[|x| := 0][..|x|] == a[..|x|];
    CStringIs(a[|x| := 0], |x|);
  }

  /** A string of one to four bytes has no continuation: a broker string is stored whole, anything
      else only waits with its flag up. */
  lemma ShortStringWaits(s: Receiver, data: seq<byte>)
    requires Sound(s) && StringHeader(data) && 0 < Declared(data) <= 4 && 0 !in data[4..4 + Declared(data)]
    ensures var r, x := OnFrame(s, data), data[4..4 + Declared(data)];
            && r.give == s.give && r.prev == s.prev && r.i == r.length == Declared(data)
            && r.delivered == s.delivered + (if data[1] == 7 then [(Broker, x)] else [])
            && r.arr[..Declared(data)] == x
  {
    var copied, x := ShortCopied(s, data);
    TerminatorEnds(copied.arr, x);
  }

  lemma {:induction false} CopyShort(s: Receiver, data: seq<byte>)
    requires Sound(s) && |data| == 8 && s.i <= s.length <= 4
    ensures var r := CopyFirst(s, data);
            && r == s.(arr := r.arr, i := s.length) && |r.arr| == |s.arr|
            && r.arr[..s.length] == s.arr[..s.i] + data[4 + s.i..4 + s.length]
    decreases 4 - s.i
  {
    if s.i < s.length {
      var s1 := s.(arr := s.arr[s.i := data[s.i + 4]], i := s.i + 1);
      CopyShort(s1, data);
      assert s1.arr[..s1.i] + data[4 + s1.i..4 + s.length] == s.arr[..s.i] + data[4 + s.i..4 + s.length];
    }
  }
}
