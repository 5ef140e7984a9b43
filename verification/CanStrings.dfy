/** Configuration strings that arrive over CAN in pieces: 4 bytes in a frame numbered 5, then
    7 bytes in each frame numbered 6, 7, ...  One buffer serves all targets. */
module CanStrings {

  type byte = x: int | 0 <= x < 256

  const COMMA: byte := 44
  const BUFFER: nat := 100

  /** Where a string goes: the parameter numbers 4, 5, 6, 7, 8 and 10. */
  datatype Target = Version | OcppUrl | Wifi | Broker | Serial2 | DateTime

  datatype Fields = Fields(hmi: seq<byte>, lcu: seq<byte>, mcu: seq<byte>, evse0: seq<byte>, evse1: seq<byte>,
                           ocppUrl: seq<byte>, ssid: seq<byte>, password: seq<byte>, broker: seq<byte>,
                           serial2: seq<byte>, dateTime: seq<byte>)

  /** The receiver: buffer, write index, declared length, completion mark, raised target
      flags, last continuation number; delivered lists the strings handed to targets, from
      which the configuration follows. */
  datatype Receiver = Receiver(arr: seq<byte>, i: nat, length: nat, give: bool, flags: set<Target>, prev: int,
                               delivered: seq<(Target, seq<byte>)>)

  predicate Sound(s: Receiver) {
    |s.arr| == BUFFER && s.i <= s.length < BUFFER
  }

  // ---------------------------------------------------------------- C strings

  function CString(a: seq<byte>): (r: seq<byte>)
    ensures r <= a && 0 !in r
    ensures |r| < |a| ==> a[|r|] == 0
  {
    if a == [] || a[0] == 0 then [] else [a[0]] + CString(a[1..])
  }

  /** strncpy of a C string into a field of n characters and a terminator. */
  function Cut(s: seq<byte>, n: nat): seq<byte> {
    if |s| <= n then s else s[..n]
  }

  /** The length of the part before the first comma. */
  function TokenLength(s: seq<byte>): (n: nat)
    ensures n <= |s| && COMMA !in s[..n]
    ensures n < |s| ==> s[n] == COMMA
  {
    if s == [] || s[0] == COMMA then 0 else 1 + TokenLength(s[1..])
  }

  /** strtok(s, ","): the non-empty parts between commas. */
  function Tokens(s: seq<byte>): seq<seq<byte>> {
    if s == [] then []
    else if s[0] == COMMA then Tokens(s[1..])
    else
      var n := TokenLength(s);
      [s[..n]] + (if n < |s| then Tokens(s[n + 1..]) else [])
  }

  /** What strtok leaves in the string: the comma after each part becomes the terminator. */
  function Marked(s: seq<byte>): (r: seq<byte>)
    ensures |r| == |s|
  {
    if s == [] then []
    else if s[0] == COMMA then [COMMA] + Marked(s[1..])
    else
      var n := TokenLength(s);
      s[..n] + (if n < |s| then [0] + Marked(s[n + 1..]) else [])
  }

  function AssignVersion(f: Fields, k: nat, token: seq<byte>): Fields {
    match k
    case 0 => f.(hmi := Cut(token, 44))
    case 1 => f.(lcu := Cut(token, 44))
    case 2 => f.(mcu := Cut(token, 44))
    case 3 => f.(evse0 := Cut(token, 44))
    case 4 => f.(evse1 := Cut(token, 44))
    case _ => f
  }

  /** The tokens go to the version fields from number k on; a sixth one is ignored. */
  function AssignVersions(f: Fields, tokens: seq<seq<byte>>, k: nat): Fields
    decreases |tokens|
  {
    if tokens == [] then f else AssignVersions(AssignVersion(f, k, tokens[0]), tokens[1..], k + 1)
  }

  function AssignWifi(f: Fields, tokens: seq<seq<byte>>): Fields {
    var f1 := if |tokens| > 0 then f.(ssid := Cut(tokens[0], 49)) else f;
    if |tokens| > 1 then f1.(password := Cut(tokens[1], 99)) else f1
  }

  function Assign(f: Fields, target: Target, s: seq<byte>): Fields {
    match target
    case Version => AssignVersions(f, Tokens(s), 0)
    case OcppUrl => f.(ocppUrl := Cut(s, 99))
    case Wifi => AssignWifi(f, Tokens(Cut(s, 99)))
    case Broker => f.(broker := Cut(s, 99))
    case Serial2 => f.(serial2 := Cut(s, 25))
    case DateTime => f.(dateTime := Cut(s, 24))
  }

  /** The configuration after these strings, in order. */
  function AssignAll(f: Fields, delivered: seq<(Target, seq<byte>)>): Fields {
    if delivered == [] then f
    else
      var last := delivered[|delivered| - 1];
      Assign(AssignAll(f, delivered[..|delivered| - 1]), last.0, last.1)
  }

  // ---------------------------------------------------------------- one frame

  function Min(a: int, b: int): int {
    if a <= b then a else b
  }

  /** stringLength is a uint8_t, the frame's field has 16 bits. */
  function Declared(data: seq<byte>): nat
    requires |data| == 8
  {
    (data[2] as int * 256 + data[3] as int) % 256
  }

  function TargetOf(parameter: byte): set<Target> {
    if parameter == 4 then {Version}
    else if parameter == 5 then {OcppUrl}
    else if parameter == 6 then {Wifi}
    else if parameter == 8 then {Serial2}
    else if parameter == 10 then {DateTime}
    else {}
  }

  /** Parameter 7. */
  const BROKER: byte := 7

  predicate StringHeader(data: seq<byte>) {
    |data| == 8 && data[0] == 5 && (TargetOf(data[1]) != {} || data[1] == BROKER)
  }

  /** The loop of the first frame: up to 4 bytes. */
  function CopyFirst(s: Receiver, data: seq<byte>): (r: Receiver)
    requires Sound(s) && |data| == 8 && s.i <= 4
    ensures Sound(r)
    decreases 4 - s.i
  {
    if s.i < 4 && s.i < s.length
    then CopyFirst(s.(arr := s.arr[s.i := data[s.i + 4]], i := s.i + 1), data)
    else s
  }

  /** The first frame of a string.  The broker string is copied at once. */
  function OnHeader(s: Receiver, data: seq<byte>): (r: Receiver)
    requires Sound(s) && StringHeader(data) && Declared(data) < BUFFER
    ensures Sound(r)
  {
    var s1 := CopyFirst(s.(i := 0, length := Declared(data), flags := s.flags + TargetOf(data[1])), data);
    if data[1] == BROKER then
      var arr := if 0 < s1.i == s1.length then s1.arr[s1.i := 0] else s1.arr;
      s1.(arr := arr, delivered := s1.delivered + [(Broker, CString(arr))])
    else s1
  }

  /** One byte of a continuation; reaching the declared length terminates the string and sets
      the completion mark. */
  function Put(s: Receiver, b: byte): (r: Receiver)
    requires Sound(s) && s.i < s.length
    ensures Sound(r)
  {
    var arr := s.arr[s.i := b];
    if s.i + 1 == s.length then s.(arr := arr[s.length := 0], i := s.i + 1, give := true)
    else s.(arr := arr, i := s.i + 1)
  }

  /** The loop of a continuation: byte j of up to 7. */
  function CopyNext(s: Receiver, data: seq<byte>, j: nat): (r: Receiver)
    requires Sound(s) && |data| == 8 && j <= 7
    ensures Sound(r)
    decreases 7 - j
  {
    if j < 7 && s.i < s.length then CopyNext(Put(s, data[j + 1]), data, j + 1) else s
  }

  function Consume(s: Receiver, target: Target): Receiver
    requires Sound(s)
  {
    var text := CString(s.arr);
    s.(flags := s.flags - {target}, give := false,
       arr := if target == Version then Marked(text) + s.arr[|text|..] else s.arr,
       delivered := s.delivered + [(target, text)])
  }

  const ORDER: seq<Target> := [Version, OcppUrl, Wifi, Serial2, DateTime]

  /** A completed string goes to the first target, in this order, whose flag is up. */
  function DeliverTo(s: Receiver, order: seq<Target>): (r: Receiver)
    requires Sound(s)
    ensures Sound(r) && r.prev == s.prev
  {
    if order == [] then s
    else if order[0] in s.flags then Consume(s, order[0])
    else DeliverTo(s, order[1..])
  }

  function Deliver(s: Receiver): Receiver
    requires Sound(s)
  {
    if s.give then DeliverTo(s, ORDER) else s
  }

  /** A frame numbered above 5; one numbered like the last such frame is only acknowledged. */
  function OnContinuation(s: Receiver, data: seq<byte>): Receiver
    requires Sound(s) && |data| == 8 && data[0] > 5
  {
    if data[0] == s.prev then s else Deliver(CopyNext(s.(prev := data[0]), data, 0))
  }

  predicate Acceptable(data: seq<byte>) {
    |data| == 8 && (StringHeader(data) ==> Declared(data) < BUFFER)
  }

  /** The string part of handle_charger_config. */
  function OnFrame(s: Receiver, data: seq<byte>): (r: Receiver)
    requires Sound(s) && Acceptable(data)
    ensures Sound(r)
  {
    if data[0] > 5 then OnContinuation(s, data)
    else if StringHeader(data) then OnHeader(s, data)
    else s
  }

  /** A run of frames; frames that would overrun the buffer are not part of the model. */
  function Receive(s: Receiver, frames: seq<seq<byte>>): Receiver {
    if frames == [] then s
    else
      var r, last := Receive(s, frames[..|frames| - 1]), frames[|frames| - 1];
      if Sound(r) && Acceptable(last) then OnFrame(r, last) else r
  }

  // ---------------------------------------------------------------- the sender

  function ParameterOf(target: Target): byte {
    match target
    case Version => 4
    case OcppUrl => 5
    case Wifi => 6
    case Broker => 7
    case Serial2 => 8
    case DateTime => 10
  }

  /** Broker strings are not flagged, so only the others are reassembled. */
  predicate Flagged(target: Target) {
    target != Broker
  }

  predicate Text(x: seq<byte>) {
    5 <= |x| <= 99 && 0 !in x
  }

  /** A byte of the text, or padding after its end. */
  function At(x: seq<byte>, k: nat, pad: byte): byte {
    if k < |x| then x[k] else pad
  }

  /** m bytes of the text from position o on. */
  function Chunk(x: seq<byte>, o: nat, pad: byte, m: nat): (r: seq<byte>)
    ensures |r| == m && forall j :: 0 <= j < m ==> r[j] == At(x, o + j, pad)
  {
    if m == 0 then [] else Chunk(x, o, pad, m - 1) + [At(x, o + m - 1, pad)]
  }

  function HeaderFrame(target: Target, x: seq<byte>): (data: seq<byte>)
    requires Text(x)
    ensures StringHeader(data) && Declared(data) == |x|
  {
    [5, ParameterOf(target), 0, |x|, x[0], x[1], x[2], x[3]]
  }

  /** Continuation k carries the 7 bytes after the first 4 + 7 * (k - 1). */
  function ContinuationFrame(x: seq<byte>, k: nat, pad: byte): (data: seq<byte>)
    requires 1 <= k <= 250
    ensures |data| == 8 && data[0] == 5 + k
  {
    [5 + k] + Chunk(x, 4 + 7 * (k - 1), pad, 7)
  }

  /** The number of continuations. */
  function Continuations(x: seq<byte>): (n: nat)
    requires Text(x)
    ensures 1 <= n <= 14 && 4 + 7 * (n - 1) < |x| <= 4 + 7 * n
  {
    (|x| + 2) / 7
  }

  /** Frame 0 is the header, frame k the k-th continuation. */
  function FrameNo(target: Target, x: seq<byte>, pad: byte, k: nat): (data: seq<byte>)
    requires Text(x) && k <= Continuations(x)
    ensures Acceptable(data)
  {
    if k == 0 then HeaderFrame(target, x) else ContinuationFrame(x, k, pad)
  }

  /** A transfer: a text for a target, the padding, and the numbers of the frames as they
      are delivered. */
  datatype Transfer = Transfer(target: Target, text: seq<byte>, pad: byte, numbers: seq<nat>)

  /** Number k is followed by itself or the next one. */
  predicate Follows(numbers: seq<nat>, k: nat)
    requires k + 1 < |numbers|
  {
    numbers[k + 1] == numbers[k] || numbers[k + 1] == numbers[k] + 1
  }

  /** Every frame is delivered in order, once or several times in a row; the header of a
      broker string only once, since every delivery of it stores the broker. */
  predicate Sendable(t: Transfer) {
    && Text(t.text) && t.numbers != []
    && t.numbers[0] == 0 && t.numbers[|t.numbers| - 1] == Continuations(t.text)
    && (forall k :: 0 <= k < |t.numbers| ==> t.numbers[k] <= Continuations(t.text))
    && (forall k {:trigger Follows(t.numbers, k)} :: 0 <= k < |t.numbers| - 1 ==> Follows(t.numbers, k))
    && (t.target == Broker ==> forall k :: 0 < k < |t.numbers| ==> t.numbers[k] > 0)
  }

  function Frames(t: Transfer): (r: seq<seq<byte>>)
    requires Sendable(t)
    ensures |r| == |t.numbers|
    ensures forall k :: 0 <= k < |r| ==> r[k] == FrameNo(t.target, t.text, t.pad, t.numbers[k])
  {
    seq(|t.numbers|, k requires 0 <= k < |t.numbers| => FrameNo(t.target, t.text, t.pad, t.numbers[k]))
  }

  function Join(tokens: seq<seq<byte>>): seq<byte> {
    if tokens == [] then []
    else if |tokens| == 1 then tokens[0]
    else tokens[0] + [COMMA] + Join(tokens[1..])
  }
}
