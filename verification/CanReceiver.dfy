/** The string part of handle_charger_config over its global buffer and flags. */
module CanReceiving {
  import opened CanStrings
  import opened CanFacts

  /** The strtok loop part way: the part of the buffer that is done with, the rest of the
      text, what follows it, and the configuration so far. */
  datatype Splitting = Splitting(done: seq<byte>, rest: seq<byte>, tail: seq<byte>, config: Fields, index: nat)

  function Buffer(w: Splitting): seq<byte> {
    w.done + w.rest + w.tail
  }

  function FinalBuffer(w: Splitting): seq<byte> {
    w.done + Marked(w.rest) + w.tail
  }

  function FinalConfig(w: Splitting): Fields {
    AssignVersions(w.config, Tokens(w.rest), w.index)
  }

  /** A comma that no part precedes is skipped. */
  lemma AfterComma(w: Splitting) returns (w': Splitting)
    requires w.rest != [] && w.rest[0] == COMMA
    ensures w' == w.(done := w.done + [COMMA], rest := w.rest[1..])
    ensures Buffer(w') == Buffer(w) && FinalBuffer(w') == FinalBuffer(w) && FinalConfig(w') == FinalConfig(w)
  {
    w' := w.(done := w.done + [COMMA], rest := w.rest[1..]);
    assert w.rest == [COMMA] + w'.rest;
    assert Marked(w.rest) == [COMMA] + Marked(w'.rest);
  }

  lemma AssignFirst(f: Fields, token: seq<byte>, tokens: seq<seq<byte>>, k: nat)
    ensures AssignVersions(f, [token] + tokens, k) == AssignVersions(AssignVersion(f, k, token), tokens, k + 1)
  {
    assert ([token] + tokens)[1..] == tokens;
  }

  lemma TokenInBuffer(done: seq<byte>, rest: seq<byte>, tail: seq<byte>, n: nat)
    requires n < |rest|
    ensures |done| + n < |done + rest + tail|
    ensures (done + rest + tail)[|done| + n := 0] == (done + rest[..n] + [0]) + rest[n + 1..] + tail
  {
    assert rest == rest[..n] + [rest[n]] + rest[n + 1..];
  }

  /** A part in the middle is assigned and its comma becomes a terminator. */
  lemma AfterToken(w: Splitting) returns (w': Splitting)
    requires w.rest != [] && w.rest[0] != COMMA && TokenLength(w.rest) < |w.rest|
    ensures var n := TokenLength(w.rest);
            && w' == Splitting(w.done + w.rest[..n] + [0], w.rest[n + 1..], w.tail,
                               AssignVersion(w.config, w.index, w.rest[..n]), w.index + 1)
            && |w.done| + n < |Buffer(w)| && Buffer(w') == Buffer(w)[|w.done| + n := 0]
    ensures FinalBuffer(w') == FinalBuffer(w) && FinalConfig(w') == FinalConfig(w)
  {
    var n := TokenLength(w.rest);
    var token, rest := w.rest[..n], w.rest[n + 1..];
    w' := Splitting(w.done + token + [0], rest, w.tail, AssignVersion(w.config, w.index, token), w.index + 1);
    TokenInBuffer(w.done, w.rest, w.tail, n);
    TokenMarked(w.rest, n);
    TokenFound(w.rest, n);
    AssignFirst(w.config, token, Tokens(rest), w.index);
    Regroup(w.done, token, Marked(rest));
  }

  lemma Regroup(a: seq<byte>, b: seq<byte>, c: seq<byte>)
    ensures a + (b + ([0] + c)) == (a + b + [0]) + c
  {
  }

  /** The last part is assigned. */
  lemma AfterLastToken(w: Splitting) returns (w': Splitting)
    requires w.rest != [] && w.rest[0] != COMMA && TokenLength(w.rest) == |w.rest|
    ensures w' == Splitting(w.done + w.rest, [], w.tail, AssignVersion(w.config, w.index, w.rest), w.index + 1)
    ensures Buffer(w') == Buffer(w) && FinalBuffer(w') == FinalBuffer(w) && FinalConfig(w') == FinalConfig(w)
  {
    w' := Splitting(w.done + w.rest, [], w.tail, AssignVersion(w.config, w.index, w.rest), w.index + 1);
    assert w.rest[..|w.rest|] == w.rest;
    assert Marked(w.rest) == w.rest && Tokens(w.rest) == [w.rest];
    AssignFirst(w.config, w.rest, [], w.index);
    assert [w.rest] + [] == [w.rest];
  }

  /** Either way, with what it means for the positions. */
  lemma AfterPart(w: Splitting) returns (w': Splitting)
    requires w.rest != [] && w.rest[0] != COMMA
    ensures var n := TokenLength(w.rest);
            && w'.config == AssignVersion(w.config, w.index, w.rest[..n]) && w'.index == w.index + 1
            && |w'.done| == |w.done| + (if n < |w.rest| then n + 1 else n)
            && |w'.done| + |w'.rest| == |w.done| + |w.rest|
            && |w.done| + |w.rest| <= |Buffer(w)|
            && Buffer(w') == if n < |w.rest| then Buffer(w)[|w.done| + n := 0] else Buffer(w)
    ensures FinalBuffer(w') == FinalBuffer(w) && FinalConfig(w') == FinalConfig(w)
  {
    if TokenLength(w.rest) < |w.rest| {
      w' := AfterToken(w);
    } else {
      w' := AfterLastToken(w);
      assert w.rest[..|w.rest|] == w.rest;
    }
  }

  lemma RestInBuffer(w: Splitting)
    ensures Buffer(w)[|w.done|..|w.done| + |w.rest|] == w.rest
  {
  }

  class CanReceiver {
    const arr: array<byte>
    var i: nat
    var stringLength: nat
    var giveEntryToPrint: bool
    var flags: set<Target>
    var prevSequenceNo: int
    var config: Fields
    ghost const initial: Fields
    ghost var delivered: seq<(Target, seq<byte>)>

    ghost function State(): Receiver
      reads this, arr
    {
      Receiver(arr[..], i, stringLength, giveEntryToPrint, flags, prevSequenceNo, delivered)
    }

    /** The configuration is what the delivered strings make of the initial one. */
    ghost predicate Valid()
      reads this, arr
    {
      Sound(State()) && config == AssignAll(initial, delivered)
    }

    constructor (config: Fields)
      ensures Valid() && fresh(arr) && initial == config && delivered == []
      ensures flags == {} && !giveEntryToPrint && prevSequenceNo == 0
    {
      arr := new byte[BUFFER](_ => 0);
      i, stringLength, giveEntryToPrint, flags, prevSequenceNo := 0, 0, false, {}, 0;
      this.config, initial, delivered := config, config, [];
    }

    /** The byte loop of a first frame. */
    method CopyFirstBytes(data: seq<byte>)
      requires Sound(State()) && |data| == 8 && i <= 4
      modifies this`i, arr
      ensures State() == CopyFirst(old(State()), data)
    {
      ghost var goal := CopyFirst(State(), data);
      while i < 4 && i < stringLength
        invariant Sound(State()) && i <= 4
        invariant CopyFirst(State(), data) == goal
        decreases 4 - i
      {
        ghost var s := State();
        arr[i] := data[i + 4];
        i := i + 1;
        assert arr[..] == s.arr[s.i := data[s.i + 4]];
      }
    }

    /** One byte of a continuation. */
    method CopyByte(b: byte)
      requires Sound(State()) && i < stringLength
      modifies this`i, this`giveEntryToPrint, arr
      ensures State() == Put(old(State()), b)
    {
      arr[i] := b;
      i := i + 1;
      if i == stringLength {
        arr[i] := 0;
        giveEntryToPrint := true;
      }
    }

    /** The byte loop of a continuation. */
    method CopyNextBytes(data: seq<byte>)
      requires Sound(State()) && |data| == 8
      modifies this`i, this`giveEntryToPrint, arr
      ensures State() == CopyNext(old(State()), data, 0)
    {
      var startIndex := i;
      ghost var goal := CopyNext(State(), data, 0);
      while i < startIndex + 7 && i < stringLength
        invariant Sound(State()) && startIndex <= i <= startIndex + 7
        invariant CopyNext(State(), data, i - startIndex) == goal
        decreases startIndex + 7 - i
      {
        CopyByte(data[i - startIndex + 1]);
      }
    }

    /** The length of the C string in the buffer. */
    method StringEnd() returns (n: nat)
      ensures n == |CString(arr[..])|
    {
      n := 0;
      while n < arr.Length && arr[n] != 0
        invariant n <= arr.Length && 0 !in arr[..n]
      {
        assert arr[..n + 1] == arr[..n] + [arr[n]];
        n := n + 1;
      }
      assert arr[..][..n] == arr[..n];
      if n < arr.Length {
        CStringIs(arr[..], n);
      } else {
        assert arr[..n] == arr[..];
        CStringLacksZero(arr[..]);
      }
    }

    /** strtok's search for the end of the part that starts at pos. */
    method TokenEnd(pos: nat, n: nat) returns (end: nat)
      requires pos <= n <= arr.Length
      ensures pos <= end <= n && end - pos == TokenLength(arr[pos..n])
    {
      end := pos;
      while end < n && arr[end] != COMMA
        invariant pos <= end <= n && COMMA !in arr[pos..end]
      {
        assert arr[pos..end + 1] == arr[pos..end] + [arr[end]];
        end := end + 1;
      }
      assert arr[pos..n][..end - pos] == arr[pos..end];
      TokenLengthIs(arr[pos..n], end - pos);
    }

    method SetVersion(tokenIndex: nat, token: seq<byte>)
      modifies this`config
      ensures config == AssignVersion(old(config), tokenIndex, token)
    {
      match tokenIndex
      case 0 => config := config.(hmi := Cut(token, 44));
      case 1 => config := config.(lcu := Cut(token, 44));
      case 2 => config := config.(mcu := Cut(token, 44));
      case 3 => config := config.(evse0 := Cut(token, 44));
      case 4 => config := config.(evse1 := Cut(token, 44));
      case _ =>
    }

    /** One call of strtok that finds a part: the comma after it becomes a terminator. */
    method TakeToken(pos: nat, n: nat) returns (token: seq<byte>, next: nat)
      requires pos < n <= arr.Length && arr[pos] != COMMA
      modifies arr
      ensures var rest := old(arr[pos..n]);
              var end := pos + TokenLength(rest);
              && end <= n && token == rest[..end - pos]
              && next == (if end < n then end + 1 else end)
              && arr[..] == if end < n then old(arr[..])[end := 0] else old(arr[..])
    {
      var end := TokenEnd(pos, n);
      token := arr[pos..end];
      assert token == arr[pos..n][..end - pos];
      next := end;
      if end < n {
        arr[end] := 0;
        next := end + 1;
      }
    }

    /** One round of the strtok loop. */
    method SplitNext(pos: nat, n: nat, tokenIndex: nat, ghost w: Splitting)
      returns (next: nat, nextIndex: nat, ghost w': Splitting)
      requires pos == |w.done| < n == |w.done| + |w.rest| && tokenIndex == w.index && n <= arr.Length
      requires arr[..] == Buffer(w) && config == w.config
      modifies this`config, arr
      ensures pos < next == |w'.done| <= n == |w'.done| + |w'.rest| && nextIndex == w'.index
      ensures arr[..] == Buffer(w') && config == w'.config
      ensures FinalBuffer(w') == FinalBuffer(w) && FinalConfig(w') == FinalConfig(w)
    {
      assert arr[pos..n] == w.rest by {
        RestInBuffer(w);
        assert arr[pos..n] == arr[..][pos..n];
      }
      assert arr[pos] == w.rest[0];
      if arr[pos] == COMMA {
        w' := AfterComma(w);
        next, nextIndex := pos + 1, tokenIndex;
      } else {
        next, w' := SplitToken(pos, n, tokenIndex, w);
        nextIndex := tokenIndex + 1;
      }
    }

    /** The round that finds a part. */
    method SplitToken(pos: nat, n: nat, tokenIndex: nat, ghost w: Splitting) returns (next: nat, ghost w': Splitting)
      requires pos == |w.done| < n == |w.done| + |w.rest| && tokenIndex == w.index && n <= arr.Length
      requires arr[..] == Buffer(w) && config == w.config && arr[pos..n] == w.rest && w.rest[0] == arr[pos] != COMMA
      modifies this`config, arr
      ensures pos < next == |w'.done| <= n == |w'.done| + |w'.rest| && tokenIndex + 1 == w'.index
      ensures arr[..] == Buffer(w') && config == w'.config
      ensures FinalBuffer(w') == FinalBuffer(w) && FinalConfig(w') == FinalConfig(w)
    {
      w' := AfterPart(w);
      var token;
      token, next := TakeToken(pos, n);
      SetVersion(tokenIndex, token);
    }

    /** The strtok loop over the version string, in the buffer itself. */
    method SplitVersions()
      modifies this`config, arr
      ensures var text := CString(old(arr[..]));
              && config == AssignVersions(old(config), Tokens(text), 0)
              && arr[..] == Marked(text) + old(arr[..])[|text|..]
    {
      ghost var whole := arr[..];
      ghost var text := CString(whole);
      ghost var w := Splitting([], text, whole[|text|..], config, 0);
      assert Buffer(w) == whole && FinalBuffer(w) == Marked(text) + whole[|text|..];
      var n := StringEnd();
      var pos, tokenIndex := 0, 0;
      while pos < n
        invariant pos == |w.done| <= n == |w.done| + |w.rest| && tokenIndex == w.index
        invariant arr[..] == Buffer(w) && config == w.config
        invariant FinalBuffer(w) == Marked(text) + whole[|text|..]
        invariant FinalConfig(w) == AssignVersions(old(config), Tokens(text), 0)
        decreases n - pos
      {
        pos, tokenIndex, w := SplitNext(pos, n, tokenIndex, w);
      }
      assert w.rest == [];
    }

    /** parseWiFiCredentials works on a copy. */
    method ParseWifi(text: seq<byte>)
      modifies this`config
      ensures config == AssignWifi(old(config), Tokens(Cut(text, 99)))
    {
      var tokens := Tokens(Cut(text, 99));
      if |tokens| > 0 {
        config := config.(ssid := Cut(tokens[0], 49));
      }
      if |tokens| > 1 {
        config := config.(password := Cut(tokens[1], 99));
      }
    }

    /** The string in the buffer goes into the configuration. */
    method AssignString(target: Target) returns (text: seq<byte>)
      requires target != Broker
      modifies this`config, arr
      ensures text == CString(old(arr[..])) && config == Assign(old(config), target, text)
      ensures arr[..] == if target == Version then Marked(text) + old(arr[..])[|text|..] else old(arr[..])
    {
      text := ReadString();
      match target {
        case Version => SplitVersions();
        case OcppUrl => config := config.(ocppUrl := Cut(text, 99));
        case Wifi => ParseWifi(text);
        case Serial2 => config := config.(serial2 := Cut(text, 25));
        case DateTime => config := config.(dateTime := Cut(text, 24));
      }
    }

    method ReadString() returns (text: seq<byte>)
      ensures text == CString(arr[..])
    {
      var n := StringEnd();
      text := arr[..n];
      assert arr[..][..n] == arr[..n];
    }

    /** The completed string goes to one target, whose flag and the mark are cleared. */
    method HandOver(target: Target)
      requires Valid() && target != Broker
      modifies this`flags, this`giveEntryToPrint, this`config, this`delivered, arr
      ensures Valid() && State() == Consume(old(State()), target)
    {
      flags := flags - {target};
      giveEntryToPrint := false;
      var text := AssignString(target);
      Record(target, text);
    }

    /** The string is one more that was delivered. */
    ghost method Record(target: Target, text: seq<byte>)
      requires Sound(State()) && config == Assign(AssignAll(initial, delivered), target, text)
      modifies this`delivered
      ensures Valid() && delivered == old(delivered) + [(target, text)]
    {
      AssignAllSnoc(initial, delivered, target, text);
      delivered := delivered + [(target, text)];
    }

    /** A frame numbered above 5. */
    method HandleContinuation(data: seq<byte>)
      requires Valid() && |data| == 8 && data[0] > 5
      modifies this, arr
      ensures Valid() && State() == OnContinuation(old(State()), data)
    {
      if data[0] == prevSequenceNo {
        return;
      }
      prevSequenceNo := data[0];
      CopyNextBytes(data);
      ghost var filled := State();
      if giveEntryToPrint {
        for k := 0 to 5
          invariant Valid() && State() == filled && giveEntryToPrint
          invariant Deliver(filled) == DeliverTo(filled, ORDER[k..])
        {
          assert ORDER[k..][0] == ORDER[k] && ORDER[k..][1..] == ORDER[k + 1..];
          if ORDER[k] in flags {
            HandOver(ORDER[k]);
            return;
          }
        }
        assert ORDER[5..] == [];
      }
    }

    /** A string handed to a target without a flag: the broker. */
    method StoreBroker()
      requires Valid()
      modifies this`config, this`delivered
      ensures Valid()
      ensures State() == old(State()).(delivered := old(delivered) + [(Broker, CString(arr[..]))])
    {
      var text := ReadString();
      config := config.(broker := Cut(text, 99));
      assert config == Assign(old(config), Broker, text);
      Record(Broker, text);
    }

    /** The broker string is copied from the buffer at its first frame. */
    method CopyBroker()
      requires Valid()
      modifies this`config, this`delivered, arr
      ensures var s := old(State());
              var put := if 0 < s.i == s.length then s.arr[s.i := 0] else s.arr;
              State() == s.(arr := put, delivered := s.delivered + [(Broker, CString(put))])
      ensures Valid()
    {
      if 0 < i == stringLength {
        arr[i] := 0;
      }
      StoreBroker();
    }

    /** The first frame of a string. */
    method HandleHeader(data: seq<byte>)
      requires Valid() && StringHeader(data) && Declared(data) < BUFFER
      modifies this, arr
      ensures Valid() && State() == OnHeader(old(State()), data)
    {
      flags := flags + TargetOf(data[1]);
      stringLength := Declared(data);
      i := 0;
      CopyFirstBytes(data);
      if data[1] == BROKER {
        CopyBroker();
      }
    }

    /** handle_charger_config, as far as strings are concerned. */
    method HandleChargerConfig(data: seq<byte>)
      requires Valid() && Acceptable(data)
      modifies this, arr
      ensures Valid() && State() == OnFrame(old(State()), data)
    {
      if data[0] > 5 {
        HandleContinuation(data);
      } else if StringHeader(data) {
        HandleHeader(data);
      }
    }
  }
}
