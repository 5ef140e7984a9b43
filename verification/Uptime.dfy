/** Uptime totals: ticks are counted in memory, flushed to NVS every 601 passes of the MQTT
    task, and reported as days, hours, minutes and seconds. */
module Uptime {

  const WORD: int := 0x1_0000_0000

  // ---------------------------------------------------------------- time of day

  datatype Time = Time(days: int, hours: int, minutes: int, seconds: int)

  /** convert_seconds_to_time, one division after the other. */
  function Convert(total: nat): Time {
    var rest := total % (24 * 3600);
    var rest' := rest % 3600;
    Time(total / (24 * 3600), rest / 3600, rest' / 60, rest' % 60)
  }

  /** convertToTimeDuration, each field from the total. */
  function Duration(total: nat): Time {
    Time(total / (24 * 3600), (total % (24 * 3600)) / 3600, (total % 3600) / 60, total % 60)
  }

  predicate Normal(t: Time) {
    0 <= t.days && 0 <= t.hours < 24 && 0 <= t.minutes < 60 && 0 <= t.seconds < 60
  }

  function Seconds(t: Time): int {
    t.days * 86400 + t.hours * 3600 + t.minutes * 60 + t.seconds
  }

  /** increment_time: carry from seconds to minutes to hours to days. */
  function Increment(t: Time, n: nat): Time
    requires Normal(t)
  {
    var s := t.seconds + n;
    var m := if s >= 60 then t.minutes + s / 60 else t.minutes;
    var h := if m >= 60 then t.hours + m / 60 else t.hours;
    Time(if h >= 24 then t.days + h / 24 else t.days,
         if h >= 24 then h % 24 else h,
         if m >= 60 then m % 60 else m,
         if s >= 60 then s % 60 else s)
  }

  lemma ConvertIsNormal(total: nat)
    ensures Normal(Convert(total)) && Seconds(Convert(total)) == total
  {
  }

  /** A normal time is determined by its seconds. */
  lemma NormalIsUnique(a: Time, b: Time)
    requires Normal(a) && Normal(b) && Seconds(a) == Seconds(b)
    ensures a == b
  {
  }

  lemma IncrementAdds(t: Time, n: nat)
    requires Normal(t)
    ensures Normal(Increment(t, n)) && Seconds(Increment(t, n)) == Seconds(t) + n
  {
  }

  /** Converting and then carrying is converting the sum. */
  lemma CarryIsAddition(total: nat, n: nat)
    ensures Normal(Convert(total))
    ensures Increment(Convert(total), n) == Convert(total + n)
  {
    ConvertIsNormal(total);
    ConvertIsNormal(total + n);
    IncrementAdds(Convert(total), n);
    NormalIsUnique(Increment(Convert(total), n), Convert(total + n));
  }

  /** On 32-bit totals the carry agrees with converting the wrapped sum exactly while the sum
      does not wrap. */
  lemma CarryAgreesIff(total: nat, n: nat)
    requires total < WORD && n < 256
    ensures Normal(Convert(total))
    ensures Increment(Convert(total), n) == Convert((total + n) % WORD) <==> total + n < WORD
  {
    CarryIsAddition(total, n);
    WrapsOnce(total + n);
    if total + n >= WORD {
      ConvertApart(total + n, total + n - WORD);
    }
  }

  lemma WrapsOnce(x: nat)
    requires x < 2 * WORD
    ensures x % WORD == if x < WORD then x else x - WORD
  {
  }

  lemma ConvertApart(a: nat, b: nat)
    requires a != b
    ensures Convert(a) != Convert(b)
  {
    ConvertIsNormal(a);
    ConvertIsNormal(b);
  }

  /** The two conversions are the same function. */
  lemma DurationIsConvert(total: nat)
    ensures Duration(total) == Convert(total)
  {
    ConvertIsNormal(total);
    DurationIsNormal(total);
    NormalIsUnique(Duration(total), Convert(total));
  }

  lemma DurationIsNormal(total: nat)
    ensures Normal(Duration(total)) && Seconds(Duration(total)) == total
  {
    var h, m := total / 3600, total / 60;
    assert total % 3600 == total - h * 3600;
    assert total % 60 == total - m * 60;
    assert (total % 3600) / 60 == m - h * 60;
    assert (total % 86400) / 3600 == h - (total / 86400) * 24;
  }

  class TimeDuration {
    var days: int
    var hours: int
    var minutes: int
    var seconds: int

    function Value(): Time
      reads this
    {
      Time(days, hours, minutes, seconds)
    }

    method ConvertSecondsToTime(total: nat)
      modifies this
      ensures Value() == Convert(total)
    {
      var totalSeconds := total;
      days := totalSeconds / (24 * 3600);
      totalSeconds := totalSeconds % (24 * 3600);
      hours := totalSeconds / 3600;
      totalSeconds := totalSeconds % 3600;
      minutes := totalSeconds / 60;
      seconds := totalSeconds % 60;
    }

    method IncrementTime(secondsToAdd: nat)
      requires Normal(Value())
      modifies this
      ensures Value() == Increment(old(Value()), secondsToAdd)
    {
      seconds := seconds + secondsToAdd;
      if seconds >= 60 {
        minutes := minutes + seconds / 60;
        seconds := seconds % 60;
      }
      if minutes >= 60 {
        hours := hours + minutes / 60;
        minutes := minutes % 60;
      }
      if hours >= 24 {
        days := days + hours / 24;
        hours := hours % 24;
      }
    }

    method ConvertToTimeDuration(total: nat)
      modifies this
      ensures Value() == Duration(total)
    {
      days := total / (24 * 3600);
      hours := (total % (24 * 3600)) / 3600;
      minutes := (total % 3600) / 60;
      seconds := total % 60;
    }
  }

  // ---------------------------------------------------------------- the counters

  /** One number per counter: internet up, internet down, websocket up, websocket down. */
  datatype Four = Four(iUp: int, iDown: int, wUp: int, wDown: int)

  const ZERO: Four := Four(0, 0, 0, 0)

  /** pending is uint8_t, totals and nvs uint32_t. */
  datatype Counters = Counters(pending: Four, totals: Four, nvs: Four, periodic: nat, uptime: nat)

  function AddWords(a: Four, b: Four): Four {
    Four((a.iUp + b.iUp) % WORD, (a.iDown + b.iDown) % WORD, (a.wUp + b.wUp) % WORD, (a.wDown + b.wDown) % WORD)
  }

  /** One second of link state: which of the counters a tick raises. */
  function Tick(internetUp: bool, websocketFine: bool): Four {
    if !internetUp then Four(0, 1, 0, 0)
    else if websocketFine then Four(1, 0, 1, 0)
    else Four(1, 0, 0, 1)
  }

  /** A uint8_t counter; one that is not raised is not touched. */
  function Bump(count: int, step: int): int {
    if step == 0 then count else (count + step) % 256
  }

  function AddBytes(a: Four, b: Four): Four {
    Four(Bump(a.iUp, b.iUp), Bump(a.iDown, b.iDown), Bump(a.wUp, b.wUp), Bump(a.wDown, b.wDown))
  }

  function Add(a: Four, b: Four): Four {
    Four(a.iUp + b.iUp, a.iDown + b.iDown, a.wUp + b.wUp, a.wDown + b.wDown)
  }

  /** What one pass sees: whether uptime is counted at all, and the two link states. */
  datatype Sight = Sight(counted: bool, internetUp: bool, websocketFine: bool)

  function Flush(c: Counters): Counters {
    if c.periodic >= 600 then
      var totals := AddWords(c.totals, c.pending);
      Counters(ZERO, totals, totals, 0, c.uptime)
    else c.(periodic := c.periodic + 1)
  }

  /** The tick of this pass, if it is the twentieth counted one. */
  function TickOf(c: Counters, sight: Sight): Four {
    if sight.counted && c.uptime + 1 >= 20 then Tick(sight.internetUp, sight.websocketFine) else ZERO
  }

  /** One pass of mqtt_task. */
  function Pass(c: Counters, sight: Sight): Counters {
    var c1 := Flush(c);
    c1.(pending := AddBytes(c1.pending, TickOf(c1, sight)),
        uptime := if !sight.counted then c1.uptime else if c1.uptime + 1 >= 20 then 0 else c1.uptime + 1)
  }

  /** At boot the totals are read from NVS. */
  function Booted(nvs: Four): Counters {
    Counters(ZERO, nvs, nvs, 0, 0)
  }

  function Passes(c: Counters, sights: seq<Sight>): Counters {
    if sights == [] then c else Pass(Passes(c, sights[..|sights| - 1]), sights[|sights| - 1])
  }

  /** All ticks of these passes, without any limit. */
  function Ticks(c: Counters, sights: seq<Sight>): Four {
    if sights == [] then ZERO
    else
      var front := sights[..|sights| - 1];
      Add(Ticks(c, front), TickOf(Passes(c, front), sights[|sights| - 1]))
  }

  /** The sights that are counted. */
  function Counted(sights: seq<Sight>): seq<Sight> {
    if sights == [] then []
    else
      var last := sights[|sights| - 1];
      Counted(sights[..|sights| - 1]) + (if last.counted then [last] else [])
  }

  /** The 20th, the 40th and so on. */
  function EveryTwentieth(sights: seq<Sight>): (r: seq<Sight>)
    ensures |r| == |sights| / 20
  {
    seq(|sights| / 20, i requires 0 <= i < |sights| / 20 => sights[20 * i + 19])
  }

  /** How many of them saw the internet in this state. */
  function Links(sights: seq<Sight>, internetUp: bool): nat {
    if sights == [] then 0
    else Links(sights[..|sights| - 1], internetUp) + (if sights[|sights| - 1].internetUp == internetUp then 1 else 0)
  }

  /** How many of them saw the internet up and the websocket in this state. */
  function Sockets(sights: seq<Sight>, websocketFine: bool): nat {
    if sights == [] then 0
    else
      var last := sights[|sights| - 1];
      Sockets(sights[..|sights| - 1], websocketFine) +
      (if last.internetUp && last.websocketFine == websocketFine then 1 else 0)
  }

  lemma TwentiethSnoc(sights: seq<Sight>, last: Sight)
    ensures EveryTwentieth(sights + [last]) ==
            EveryTwentieth(sights) + (if (|sights| + 1) % 20 == 0 then [last] else [])
  {
    var n := |sights|;
    if (n + 1) % 20 == 0 {
      assert (n + 1) / 20 == n / 20 + 1 && 20 * (n / 20) + 19 == n;
    } else {
      assert (n + 1) / 20 == n / 20;
    }
  }

  /** The pass counter counts the passes since the last tick. */
  lemma {:induction false} UptimeCounts(nvs: Four, sights: seq<Sight>)
    ensures Passes(Booted(nvs), sights).uptime == |Counted(sights)| % 20
  {
    if sights != [] {
      UptimeCounts(nvs, sights[..|sights| - 1]);
    }
  }

  ghost predicate CountedIn(ticks: Four, seconds: seq<Sight>) {
    && ticks.iDown == Links(seconds, false) && ticks.iUp == Links(seconds, true)
    && ticks.wUp == Sockets(seconds, true) && ticks.wDown == Sockets(seconds, false)
    && ticks.iUp == ticks.wUp + ticks.wDown && ticks.iUp + ticks.iDown == |seconds|
  }

  lemma OneMoreSecond(ticks: Four, seconds: seq<Sight>, last: Sight)
    requires CountedIn(ticks, seconds)
    ensures CountedIn(Add(ticks, Tick(last.internetUp, last.websocketFine)), seconds + [last])
  {
    assert (seconds + [last])[..|seconds|] == seconds;
  }

  lemma AddNothing(ticks: Four)
    ensures Add(ticks, ZERO) == ticks
  {
  }

  lemma CountedSnoc(sights: seq<Sight>)
    requires sights != []
    ensures var front, last := sights[..|sights| - 1], sights[|sights| - 1];
            Counted(sights) == if last.counted then Counted(front) + [last] else Counted(front)
  {
  }

  lemma TicksSnoc(nvs: Four, sights: seq<Sight>)
    requires sights != []
    ensures var b, front, last := Booted(nvs), sights[..|sights| - 1], sights[|sights| - 1];
            && Ticks(b, sights) == Add(Ticks(b, front), TickOf(Passes(b, front), last))
            && TickOf(Passes(b, front), last) ==
               if last.counted && |Counted(front)| % 20 == 19 then Tick(last.internetUp, last.websocketFine) else ZERO
  {
    UptimeCounts(nvs, sights[..|sights| - 1]);
  }

  lemma SecondsSnoc(sights: seq<Sight>)
    requires sights != []
    ensures var front, last := sights[..|sights| - 1], sights[|sights| - 1];
            EveryTwentieth(Counted(sights)) ==
            if last.counted && |Counted(front)| % 20 == 19 then EveryTwentieth(Counted(front)) + [last]
            else EveryTwentieth(Counted(front))
  {
    CountedSnoc(sights);
    var seconds := EveryTwentieth(Counted(sights[..|sights| - 1]));
    TwentiethSnoc(Counted(sights[..|sights| - 1]), sights[|sights| - 1]);
    assert seconds + [] == seconds;
  }

  lemma {:induction false} TicksCounted(nvs: Four, sights: seq<Sight>)
    ensures CountedIn(Ticks(Booted(nvs), sights), EveryTwentieth(Counted(sights)))
  {
    if sights == [] {
      assert EveryTwentieth(Counted(sights)) == [];
    } else {
      var front, last := sights[..|sights| - 1], sights[|sights| - 1];
      TicksCounted(nvs, front);
      TicksSnoc(nvs, sights);
      SecondsSnoc(sights);
      OneMoreSecond(Ticks(Booted(nvs), front), EveryTwentieth(Counted(front)), last);
      AddNothing(Ticks(Booted(nvs), front));
    }
  }

  /** What is counted, from the sights alone: of the counted ones in order the 20th, the 40th and
      so on, each for one second of internet down, of internet up with the websocket fine, or of
      internet up with the websocket not fine. */
  lemma TicksAreSampled(nvs: Four, sights: seq<Sight>)
    ensures var ticks, seconds := Ticks(Booted(nvs), sights), EveryTwentieth(Counted(sights));
            && ticks.iDown == Links(seconds, false) && ticks.iUp == Links(seconds, true)
            && ticks.wUp == Sockets(seconds, true) && ticks.wDown == Sockets(seconds, false)
            && ticks.iUp == ticks.wUp + ticks.wDown && ticks.iUp + ticks.iDown == |Counted(sights)| / 20
  {
    TicksCounted(nvs, sights);
  }

  predicate Word(f: Four) {
    0 <= f.iUp < WORD && 0 <= f.iDown < WORD && 0 <= f.wUp < WORD && 0 <= f.wDown < WORD
  }

  /** Passes since the last flush bound the pending ticks. */
  predicate Small(c: Counters) {
    && 0 <= c.pending.iUp && 0 <= c.pending.iDown && 0 <= c.pending.wUp && 0 <= c.pending.wDown
    && c.pending.wUp + c.pending.wDown == c.pending.iUp
    && c.uptime < 20 && c.periodic <= 600
    && 20 * (c.pending.iUp + c.pending.iDown) + c.uptime <= 19 + c.periodic + 1
    && c.totals == c.nvs && Word(c.nvs)
  }

  lemma SmallIsBelow32(c: Counters)
    requires Small(c)
    ensures c.pending.iUp + c.pending.iDown <= 31
  {
  }

  lemma FlushKeepsSmall(c: Counters)
    requires Small(c)
    ensures var d := Flush(c);
            && 0 <= d.pending.iUp && 0 <= d.pending.iDown && 0 <= d.pending.wUp && 0 <= d.pending.wDown
            && d.pending.wUp + d.pending.wDown == d.pending.iUp
            && d.periodic <= 600 && 20 * (d.pending.iUp + d.pending.iDown) + d.uptime <= 19 + d.periodic
            && d.totals == d.nvs && Word(d.nvs) && d.uptime == c.uptime
  {
  }

  /** A pass adds its tick to the pending counters without wrapping. */
  lemma PassKeepsSmall(c: Counters, sight: Sight)
    requires Small(c)
    ensures Small(Pass(c, sight))
    ensures Pass(c, sight).pending == Add(Flush(c).pending, TickOf(Flush(c), sight))
  {
    FlushKeepsSmall(c);
    NoWrap(Flush(c).pending, TickOf(Flush(c), sight));
  }

  lemma NoWrap(a: Four, b: Four)
    requires 0 <= a.iUp <= 254 && 0 <= a.iDown <= 254 && 0 <= a.wUp <= 254 && 0 <= a.wDown <= 254
    requires 0 <= b.iUp <= 1 && 0 <= b.iDown <= 1 && 0 <= b.wUp <= 1 && 0 <= b.wDown <= 1
    ensures AddBytes(a, b) == Add(a, b)
  {
  }

  /** Persisted plus pending. */
  function Shown(c: Counters): Four {
    AddWords(c.nvs, c.pending)
  }

  /** Writing the pending ticks to NVS moves them and changes no sum. */
  lemma FlushShows(c: Counters)
    requires Small(c)
    ensures Shown(Flush(c)) == Shown(c)
  {
    AddZero(c.nvs, c.pending);
  }

  lemma AddZero(a: Four, b: Four)
    ensures AddWords(AddWords(a, b), ZERO) == AddWords(a, b)
  {
    AddsUp(a, b, ZERO);
  }

  lemma PassShows(c: Counters, sight: Sight)
    requires Small(c)
    ensures Shown(Pass(c, sight)) == AddWords(Shown(c), TickOf(c, sight))
  {
    PassKeepsSmall(c, sight);
    FlushKeepsSmall(c);
    FlushShows(c);
    var d := Flush(c);
    assert Pass(c, sight).nvs == d.nvs;
    AddsUp(d.nvs, d.pending, TickOf(d, sight));
  }

  /** At every pass, persisted plus pending is the boot value plus the ticks seen, for all
      four counters; new websocket ticks are the new internet-up ticks; and no pending
      counter exceeds 31, so none ever wraps. */
  lemma {:induction false} EveryTickCounts(nvs: Four, sights: seq<Sight>)
    requires Word(nvs)
    ensures var c, ticks := Passes(Booted(nvs), sights), Ticks(Booted(nvs), sights);
            && Small(c)
            && Shown(c) == AddWords(nvs, ticks)
            && ticks.wUp + ticks.wDown == ticks.iUp
            && c.pending.iUp + c.pending.iDown <= 31 && c.pending.wUp <= 31 && c.pending.wDown <= 31
  {
    var b := Booted(nvs);
    if sights != [] {
      var front, last := sights[..|sights| - 1], sights[|sights| - 1];
      EveryTickCounts(nvs, front);
      var c := Passes(b, front);
      PassKeepsSmall(c, last);
      PassShows(c, last);
      SmallIsBelow32(Pass(c, last));
      AddsUp(nvs, Ticks(b, front), TickOf(c, last));
    }
  }

  lemma AddsUp(a: Four, b: Four, c: Four)
    ensures AddWords(AddWords(a, b), c) == AddWords(a, Add(b, c))
  {
  }

  /** When the last flush was: in every 601st pass, before that pass ticks. */
  function FlushedAt(n: nat): nat {
    if n < 601 then 0 else 601 * (n / 601) - 1
  }

  lemma FlushParts(c: Counters)
    requires Small(c)
    ensures var d := Flush(c);
            if c.periodic >= 600 then d.periodic == 0 && d.nvs == Shown(c) && d.pending == ZERO
            else d.periodic == c.periodic + 1 && d.nvs == c.nvs && d.pending == c.pending
  {
  }

  lemma PassAfterFlush(c: Counters, sight: Sight)
    requires Small(c)
    ensures var d, f := Pass(c, sight), Flush(c);
            d.periodic == f.periodic && d.nvs == f.nvs && d.pending == Add(f.pending, TickOf(c, sight))
  {
    PassKeepsSmall(c, sight);
  }

  lemma FlushedFront(sights: seq<Sight>)
    requires sights != []
    ensures var front, n := sights[..|sights| - 1], |sights|;
            FlushedAt(n) <= n &&
            sights[..FlushedAt(n)] == if n % 601 == 0 then front else front[..FlushedAt(n - 1)]
  {
    FlushStep(|sights|);
  }

  lemma ZeroFirst(ticks: Four)
    ensures Add(ZERO, ticks) == ticks
  {
  }

  lemma {:induction false} PeriodicCounts(nvs: Four, sights: seq<Sight>)
    ensures Passes(Booted(nvs), sights).periodic == |sights| % 601
  {
    if sights != [] {
      PeriodicCounts(nvs, sights[..|sights| - 1]);
      FlushStep(|sights|);
    }
  }

  predicate FlushDue(n: nat) {
    n % 601 == 0
  }

  lemma DueIs(nvs: Four, sights: seq<Sight>)
    requires sights != []
    ensures Passes(Booted(nvs), sights[..|sights| - 1]).periodic >= 600 <==> FlushDue(|sights|)
  {
    PeriodicCounts(nvs, sights[..|sights| - 1]);
    FlushStep(|sights|);
  }

  /** The ticks that a flush has written after these passes. */
  ghost function Written(nvs: Four, sights: seq<Sight>): Four {
    if sights == [] then ZERO
    else
      var front := sights[..|sights| - 1];
      if FlushDue(|sights|) then Ticks(Booted(nvs), front) else Written(nvs, front)
  }

  lemma WrittenSnoc(nvs: Four, sights: seq<Sight>) returns (before: Counters, flushed: Four, all: Four, tick: Four)
    requires sights != []
    ensures var b, front, last := Booted(nvs), sights[..|sights| - 1], sights[|sights| - 1];
            && before == Passes(b, front) && Passes(b, sights) == Pass(before, last)
            && flushed == Written(nvs, front) && all == Ticks(b, front) && tick == TickOf(before, last)
            && Ticks(b, sights) == Add(all, tick)
            && Written(nvs, sights) == if before.periodic >= 600 then all else flushed
  {
    var front := sights[..|sights| - 1];
    before, flushed, all := Passes(Booted(nvs), front), Written(nvs, front), Ticks(Booted(nvs), front);
    tick := TickOf(before, sights[|sights| - 1]);
    DueIs(nvs, sights);
  }

  lemma {:induction false} WrittenIs(nvs: Four, sights: seq<Sight>)
    ensures FlushedAt(|sights|) <= |sights| && Written(nvs, sights) == Ticks(Booted(nvs), sights[..FlushedAt(|sights|)])
  {
    if sights == [] {
      assert sights[..0] == [];
    } else {
      WrittenIs(nvs, sights[..|sights| - 1]);
      FlushedFront(sights);
    }
  }

  lemma NothingPending(nvs: Four, sights: seq<Sight>)
    requires sights == []
    ensures Add(Written(nvs, sights), Passes(Booted(nvs), sights).pending) == Ticks(Booted(nvs), sights)
  {
    var written, ticks := Written(nvs, sights), Ticks(Booted(nvs), sights);
    var pending := Passes(Booted(nvs), sights).pending;
    assert written == ZERO && ticks == ZERO && pending == ZERO;
    ZeroFirst(pending);
  }

  lemma PendingNext(nvs: Four, sights: seq<Sight>)
    requires Word(nvs) && sights != []
    requires var front := sights[..|sights| - 1];
             Add(Written(nvs, front), Passes(Booted(nvs), front).pending) == Ticks(Booted(nvs), front)
    ensures Add(Written(nvs, sights), Passes(Booted(nvs), sights).pending) == Ticks(Booted(nvs), sights)
  {
    var before, flushed, all, tick := WrittenSnoc(nvs, sights);
    EveryTickCounts(nvs, sights[..|sights| - 1]);
    FlushParts(before);
    PassAfterFlush(before, sights[|sights| - 1]);
    ZeroFirst(tick);
    AddAssociates(flushed, before.pending, tick);
  }

  lemma {:induction false} WhatIsPending(nvs: Four, sights: seq<Sight>)
    requires Word(nvs)
    ensures Add(Written(nvs, sights), Passes(Booted(nvs), sights).pending) == Ticks(Booted(nvs), sights)
  {
    if sights == [] {
      NothingPending(nvs, sights);
    } else {
      WhatIsPending(nvs, sights[..|sights| - 1]);
      PendingNext(nvs, sights);
    }
  }

  lemma {:induction false} WhatIsWritten(nvs: Four, sights: seq<Sight>)
    requires Word(nvs)
    ensures Passes(Booted(nvs), sights).nvs == AddWords(nvs, Written(nvs, sights))
  {
    if sights == [] {
      WordsStay(nvs);
    } else {
      var before, flushed, all, tick := WrittenSnoc(nvs, sights);
      WhatIsWritten(nvs, sights[..|sights| - 1]);
      EveryTickCounts(nvs, sights[..|sights| - 1]);
      FlushParts(before);
      PassAfterFlush(before, sights[|sights| - 1]);
    }
  }

  /** NVS is written in every 601st pass and in no other: it holds the ticks of the passes before
      that, and the later ones are pending. */
  lemma FlushEvery601(nvs: Four, sights: seq<Sight>)
    requires Word(nvs)
    ensures var c, n := Passes(Booted(nvs), sights), |sights|;
            && c.periodic == n % 601 && FlushedAt(n) <= n
            && c.nvs == AddWords(nvs, Ticks(Booted(nvs), sights[..FlushedAt(n)]))
            && Add(Ticks(Booted(nvs), sights[..FlushedAt(n)]), c.pending) == Ticks(Booted(nvs), sights)
  {
    PeriodicCounts(nvs, sights);
    WrittenIs(nvs, sights);
    WhatIsWritten(nvs, sights);
    WhatIsPending(nvs, sights);
  }

  lemma WordsStay(nvs: Four)
    requires Word(nvs)
    ensures AddWords(nvs, ZERO) == nvs
  {
  }

  lemma FlushStep(n: nat)
    requires n > 0
    ensures n % 601 == (if (n - 1) % 601 >= 600 then 0 else (n - 1) % 601 + 1)
    ensures FlushedAt(n) == if n % 601 == 0 then n - 1 else FlushedAt(n - 1)
  {
  }

  // ---------------------------------------------------------------- the status reply

  /** The four times of a component-status reply. */
  datatype Reply = Reply(iUp: Time, iDown: Time, wUp: Time, wDown: Time)

  /** A stored total, converted, and the pending ticks carried into it. */
  function Reported(stored: nat, pending: nat): Time {
    ConvertIsNormal(stored);
    Increment(Convert(stored), pending)
  }

  predicate NonNegative(f: Four) {
    f.iUp >= 0 && f.iDown >= 0 && f.wUp >= 0 && f.wDown >= 0
  }

  /** The reply reads the totals from NVS, not from memory. */
  function ReplyOf(c: Counters): Reply
    requires NonNegative(c.nvs) && NonNegative(c.pending)
  {
    Reply(Reported(c.nvs.iUp, c.pending.iUp), Reported(c.nvs.iDown, c.pending.iDown),
          Reported(c.nvs.wUp, c.pending.wUp), Reported(c.nvs.wDown, c.pending.wDown))
  }

  /** While no sum exceeds 32 bits, a pass loses nothing to wrapping. */
  lemma PassAdds(c: Counters, sight: Sight) returns (n: Four, p: Four)
    requires Small(c) && Word(Add(c.nvs, c.pending))
    ensures n == Pass(c, sight).nvs && p == Pass(c, sight).pending
    ensures Add(n, p) == Add(Add(c.nvs, c.pending), TickOf(c, sight))
  {
    PassKeepsSmall(c, sight);
    n, p := PassParts(c, sight);
    FlushAdds(c);
    AddAssociates(n, Flush(c).pending, TickOf(c, sight));
  }

  lemma PassParts(c: Counters, sight: Sight) returns (n: Four, p: Four)
    requires Small(c) && Pass(c, sight).pending == Add(Flush(c).pending, TickOf(Flush(c), sight))
    ensures n == Pass(c, sight).nvs == Flush(c).nvs
    ensures p == Pass(c, sight).pending == Add(Flush(c).pending, TickOf(c, sight))
  {
    n, p := Pass(c, sight).nvs, Pass(c, sight).pending;
  }

  lemma AddAssociates(a: Four, b: Four, c: Four)
    ensures Add(a, Add(b, c)) == Add(Add(a, b), c)
  {
  }

  lemma FlushAdds(c: Counters)
    requires Small(c) && Word(Add(c.nvs, c.pending))
    ensures Add(Flush(c).nvs, Flush(c).pending) == Add(c.nvs, c.pending)
  {
    WordsAdd(c.totals, c.pending);
  }

  lemma WordsAdd(a: Four, b: Four)
    requires Word(Add(a, b))
    ensures AddWords(a, b) == Add(a, b)
  {
  }

  lemma FrontFits(nvs: Four, front: Four, tick: Four)
    requires Word(nvs) && NonNegative(front) && NonNegative(tick) && Word(Add(nvs, Add(front, tick)))
    ensures Word(Add(nvs, front))
  {
  }

  lemma {:induction false} TicksAreExact(nvs: Four, sights: seq<Sight>)
    requires Word(nvs) && Word(Add(nvs, Ticks(Booted(nvs), sights)))
    ensures var c := Passes(Booted(nvs), sights);
            && Small(c) && NonNegative(Ticks(Booted(nvs), sights))
            && Add(c.nvs, c.pending) == Add(nvs, Ticks(Booted(nvs), sights))
  {
    EveryTickCounts(nvs, sights);
    TicksAreCounts(Booted(nvs), sights);
    if sights != [] {
      var front, last := sights[..|sights| - 1], sights[|sights| - 1];
      TicksAreCounts(Booted(nvs), front);
      FrontFits(nvs, Ticks(Booted(nvs), front), TickOf(Passes(Booted(nvs), front), last));
      TicksAreExact(nvs, front);
      var n, p := PassAdds(Passes(Booted(nvs), front), last);
      AddAssociates(nvs, Ticks(Booted(nvs), front), TickOf(Passes(Booted(nvs), front), last));
    }
  }

  lemma {:induction false} TicksAreCounts(c: Counters, sights: seq<Sight>)
    ensures NonNegative(Ticks(c, sights))
  {
    if sights != [] {
      TicksAreCounts(c, sights[..|sights| - 1]);
    }
  }

  /** The reply of a counter is a normal time of exactly this many seconds. */
  predicate Shows(t: Time, seconds: int) {
    Normal(t) && Seconds(t) == seconds
  }

  lemma ReportedShows(stored: nat, pending: nat)
    ensures Shows(Reported(stored, pending), stored + pending)
    ensures Reported(stored, pending) == Duration(stored + pending)
  {
    CarryIsAddition(stored, pending);
    ConvertIsNormal(stored + pending);
    DurationIsConvert(stored + pending);
  }

  /** After any passes since boot, a component-status reply shows for each of the four counters
      the boot value plus the seconds counted for it, normalised, while these fit in 32 bits. */
  lemma ReplyIsExact(nvs: Four, sights: seq<Sight>)
    requires Word(nvs) && Word(Add(nvs, Ticks(Booted(nvs), sights)))
    ensures NonNegative(Passes(Booted(nvs), sights).nvs) && NonNegative(Passes(Booted(nvs), sights).pending)
    ensures var r, seconds := ReplyOf(Passes(Booted(nvs), sights)), EveryTwentieth(Counted(sights));
            && Shows(r.iUp, nvs.iUp + Links(seconds, true)) && Shows(r.iDown, nvs.iDown + Links(seconds, false))
            && Shows(r.wUp, nvs.wUp + Sockets(seconds, true)) && Shows(r.wDown, nvs.wDown + Sockets(seconds, false))
  {
    TicksAreExact(nvs, sights);
    TicksAreSampled(nvs, sights);
    var c := Passes(Booted(nvs), sights);
    ReportedShows(c.nvs.iUp, c.pending.iUp);
    ReportedShows(c.nvs.iDown, c.pending.iDown);
    ReportedShows(c.nvs.wUp, c.pending.wUp);
    ReportedShows(c.nvs.wDown, c.pending.wDown);
  }

  /** The counters of mqtt_task. */
  class UptimeTask {
    var pending: Four
    var totals: Four
    var nvs: Four
    var counterPeriodic: nat
    var counterUptime: nat

    function State(): Counters
      reads this
    {
      Counters(pending, totals, nvs, counterPeriodic, counterUptime)
    }

    constructor (stored: Four)
      ensures State() == Booted(stored)
    {
      pending, totals, nvs := ZERO, stored, stored;
      counterPeriodic, counterUptime := 0, 0;
    }

    method RunPass(sight: Sight)
      modifies this
      ensures State() == Pass(old(State()), sight)
    {
      var due := counterPeriodic >= 600;
      counterPeriodic := counterPeriodic + 1;
      if due {
        counterPeriodic := 0;
        totals := AddWords(totals, pending);
        nvs := totals;
        pending := ZERO;
      }
      if sight.counted {
        counterUptime := counterUptime + 1;
        if counterUptime >= 20 {
          counterUptime := 0;
          if !sight.internetUp {
            pending := pending.(iDown := (pending.iDown + 1) % 256);
          } else {
            pending := pending.(iUp := (pending.iUp + 1) % 256);
            if sight.websocketFine {
              pending := pending.(wUp := (pending.wUp + 1) % 256);
            } else {
              pending := pending.(wDown := (pending.wDown + 1) % 256);
            }
          }
        }
      }
    }

    /** One time of create_componentStatus_response. */
    method ReportTime(stored: nat, ticks: nat) returns (t: Time)
      ensures t == Reported(stored, ticks)
    {
      var upTime := new TimeDuration;
      upTime.ConvertSecondsToTime(stored);
      ConvertIsNormal(stored);
      upTime.IncrementTime(ticks);
      t := upTime.Value();
    }

    /** The four times of create_componentStatus_response. */
    method ComponentStatus() returns (r: Reply)
      requires NonNegative(nvs) && NonNegative(pending)
      ensures r == ReplyOf(State())
    {
      var iUp := ReportTime(nvs.iUp, pending.iUp);
      var iDown := ReportTime(nvs.iDown, pending.iDown);
      var wUp := ReportTime(nvs.wUp, pending.wUp);
      var wDown := ReportTime(nvs.wDown, pending.wDown);
      r := Reply(iUp, iDown, wUp, wDown);
    }
  }
}
