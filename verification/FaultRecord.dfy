/** Fault-log frames: two 25-byte dates arrive in eight numbered slices, and slice 8 flips
    the bit that announces the record. */
module FaultRecord {
  import opened Wrappers
  import opened CanStrings

  const DATE: nat := 25

  /** dates is the occurrence date followed by the clearance date. */
  datatype Record = Record(dates: seq<byte>, faultType: int, player: int, faultCode: int, toggle: bool)

  predicate Frame(data: seq<byte>) {
    |data| == 8
  }

  /** The slice that carries byte p of the two dates, and its place there. */
  function SliceOf(p: nat): nat {
    if p < 5 then 1 else 2 + (p - 5) / 7
  }

  function PlaceOf(p: nat): (q: nat)
    requires p < 2 * DATE
    ensures q < 8
  {
    if p < 5 then p + 3 else 1 + (p - 5) % 7
  }

  function Dates(dates: seq<byte>, data: seq<byte>): (r: seq<byte>)
    requires |dates| == 2 * DATE && Frame(data)
    ensures |r| == 2 * DATE
  {
    seq(2 * DATE, p requires 0 <= p < 2 * DATE => if SliceOf(p) == data[0] then data[PlaceOf(p)] else dates[p])
  }

  /** One frame, as the last one received of its number determines it. */
  function OnSlice(r: Record, data: seq<byte>): (r': Record)
    requires |r.dates| == 2 * DATE && Frame(data)
    ensures |r'.dates| == 2 * DATE
  {
    Record(Dates(r.dates, data),
           if data[0] == 1 then data[1] % 16 else r.faultType,
           if data[0] == 1 then data[1] / 16 else r.player,
           if data[0] == 1 && data[2] != 0xFF then data[2] else r.faultCode,
           if data[0] == 8 then !r.toggle else r.toggle)
  }

  function OnSlices(r: Record, frames: seq<seq<byte>>): (r': Record)
    requires |r.dates| == 2 * DATE && forall k :: 0 <= k < |frames| ==> Frame(frames[k])
    ensures |r'.dates| == 2 * DATE
  {
    if frames == [] then r else OnSlice(OnSlices(r, frames[..|frames| - 1]), frames[|frames| - 1])
  }

  /** The last frame with this number. */
  function LastOf(frames: seq<seq<byte>>, number: nat): (r: Option<seq<byte>>)
    requires forall k :: 0 <= k < |frames| ==> Frame(frames[k])
    ensures r.Some? ==> Frame(r.value)
  {
    if frames == [] then None
    else
      assert Frame(frames[|frames| - 1]);
      if frames[|frames| - 1][0] == number then Some(frames[|frames| - 1])
      else LastOf(frames[..|frames| - 1], number)
  }

  function CountOf(frames: seq<seq<byte>>, number: nat): nat
    requires forall k :: 0 <= k < |frames| ==> Frame(frames[k])
  {
    if frames == [] then 0
    else
      assert Frame(frames[|frames| - 1]);
      CountOf(frames[..|frames| - 1], number) + (if frames[|frames| - 1][0] == number then 1 else 0)
  }

  /** Each date byte is that of the last frame of its slice, or was there before. */
  lemma {:induction false} ByteIsLast(r: Record, frames: seq<seq<byte>>, p: nat)
    requires |r.dates| == 2 * DATE && p < 2 * DATE && forall k :: 0 <= k < |frames| ==> Frame(frames[k])
    ensures OnSlices(r, frames).dates[p] ==
            match LastOf(frames, SliceOf(p)) case None => r.dates[p] case Some(data) => data[PlaceOf(p)]
  {
    if frames != [] {
      ByteIsLast(r, frames[..|frames| - 1], p);
    }
  }

  /** The announcing bit is the parity of the deliveries of slice 8. */
  lemma {:induction false} ToggleIsParity(r: Record, frames: seq<seq<byte>>)
    requires |r.dates| == 2 * DATE && forall k :: 0 <= k < |frames| ==> Frame(frames[k])
    ensures OnSlices(r, frames).toggle == (r.toggle != (CountOf(frames, 8) % 2 == 1))
  {
    if frames != [] {
      ToggleIsParity(r, frames[..|frames| - 1]);
    }
  }

  /** Frames may be repeated and differently numbered ones swapped: the dates depend only on
      the last frame of each number. */
  lemma SameLastSameDates(r: Record, a: seq<seq<byte>>, b: seq<seq<byte>>)
    requires |r.dates| == 2 * DATE
    requires (forall k :: 0 <= k < |a| ==> Frame(a[k])) && (forall k :: 0 <= k < |b| ==> Frame(b[k]))
    requires forall number :: 1 <= number <= 8 ==> LastOf(a, number) == LastOf(b, number)
    ensures OnSlices(r, a).dates == OnSlices(r, b).dates
  {
    forall p | 0 <= p < 2 * DATE ensures OnSlices(r, a).dates[p] == OnSlices(r, b).dates[p] {
      ByteIsLast(r, a, p);
      ByteIsLast(r, b, p);
      assert 1 <= SliceOf(p) <= 8;
    }
  }

  /** The last frame 1 with a fault code in it. */
  function LastCode(frames: seq<seq<byte>>): (r: Option<byte>)
    requires forall k :: 0 <= k < |frames| ==> Frame(frames[k])
  {
    if frames == [] then None
    else
      var last := frames[|frames| - 1];
      assert Frame(last);
      if last[0] == 1 && last[2] != 0xFF then Some(last[2]) else LastCode(frames[..|frames| - 1])
  }

  /** Type and player are the two halves of byte 1 of the last frame 1; the code is that of the last
      frame 1 that has one. */
  lemma {:induction false} HeaderIsLast(r: Record, frames: seq<seq<byte>>)
    requires |r.dates| == 2 * DATE && forall k :: 0 <= k < |frames| ==> Frame(frames[k])
    ensures var r', first := OnSlices(r, frames), LastOf(frames, 1);
            && (first == None ==> r'.faultType == r.faultType && r'.player == r.player)
            && (first.Some? ==> 0 <= r'.faultType < 16 && 16 * r'.player + r'.faultType == first.value[1] as int)
            && r'.faultCode == match LastCode(frames) case None => r.faultCode case Some(code) => code as int
  {
    if frames != [] {
      HeaderIsLast(r, frames[..|frames| - 1]);
    }
  }

  /** How the controller sends a fault: the header with the first five bytes of the occurrence
      date, then seven bytes in each frame; frame 4 ends the one date and begins the other, and
      the last four bytes of frame 8 are padding. */
  function Sent(faultType: nat, player: nat, code: byte, occurrence: seq<byte>, clearance: seq<byte>, pad: byte):
    (frames: seq<seq<byte>>)
    requires faultType < 16 && player < 16 && |occurrence| == DATE && |clearance| == DATE
    ensures |frames| == 8 && forall k :: 0 <= k < 8 ==> Frame(frames[k])
  {
    [[1, 16 * player + faultType, code] + occurrence[0..5],
     [2] + occurrence[5..12],
     [3] + occurrence[12..19],
     [4] + occurrence[19..25] + clearance[0..1],
     [5] + clearance[1..8],
     [6] + clearance[8..15],
     [7] + clearance[15..22],
     [8] + clearance[22..25] + [pad, pad, pad, pad]]
  }

  predicate Numbered(frames: seq<seq<byte>>) {
    |frames| == 8 && forall k :: 0 <= k < 8 ==> Frame(frames[k]) && frames[k][0] as int == k + 1
  }

  /** Each number occurs once, so it is last of its own. */
  lemma {:induction false} NumberedLast(frames: seq<seq<byte>>, m: nat, number: nat)
    requires Numbered(frames) && m <= 8 && 1 <= number <= 8
    ensures LastOf(frames[..m], number) == if number <= m then Some(frames[number - 1]) else None
    ensures CountOf(frames[..m], number) == if number <= m then 1 else 0
    ensures LastCode(frames[..m]) == if m > 0 && frames[0][2] != 0xFF then Some(frames[0][2]) else None
  {
    if m > 0 {
      NumberedLast(frames, m - 1, number);
      assert frames[..m][..m - 1] == frames[..m - 1] && frames[..m][m - 1] == frames[m - 1];
    }
  }

  lemma SentByte(faultType: nat, player: nat, code: byte, occurrence: seq<byte>, clearance: seq<byte>,
                 pad: byte, p: nat)
    requires faultType < 16 && player < 16 && |occurrence| == DATE && |clearance| == DATE && p < 2 * DATE
    ensures 1 <= SliceOf(p) <= 8
    ensures Sent(faultType, player, code, occurrence, clearance, pad)[SliceOf(p) - 1][PlaceOf(p)] ==
            (occurrence + clearance)[p]
  {
    assert SliceOf(p) == if p < 5 then 1 else if p < 12 then 2 else if p < 19 then 3 else if p < 26 then 4
                         else if p < 33 then 5 else if p < 40 then 6 else if p < 47 then 7 else 8;
  }

  /** Eight frames in order bring the whole record over, and announce it once. */
  lemma RecordArrives(r: Record, faultType: nat, player: nat, code: byte, occurrence: seq<byte>,
                      clearance: seq<byte>, pad: byte)
    requires |r.dates| == 2 * DATE
    requires faultType < 16 && player < 16 && |occurrence| == DATE && |clearance| == DATE
    ensures OnSlices(r, Sent(faultType, player, code, occurrence, clearance, pad)) ==
            Record(occurrence + clearance, faultType, player,
                   if code == 0xFF then r.faultCode else code as int, !r.toggle)
  {
    var frames := Sent(faultType, player, code, occurrence, clearance, pad);
    assert frames[..8] == frames;
    NumberedLast(frames, 8, 1);
    NumberedLast(frames, 8, 8);
    HeaderIsLast(r, frames);
    ToggleIsParity(r, frames);
    forall p | 0 <= p < 2 * DATE ensures OnSlices(r, frames).dates[p] == (occurrence + clearance)[p] {
      SentByte(faultType, player, code, occurrence, clearance, pad, p);
      NumberedLast(frames, 8, SliceOf(p));
      ByteIsLast(r, frames, p);
    }
    assert OnSlices(r, frames).dates == occurrence + clearance;
  }

  /** handle_fault_log over the global record. */
  class FaultLog {
    const occurrence: array<byte>
    const clearance: array<byte>
    var faultType: int
    var player: int
    var faultCode: int
    var exchanged: bool

    ghost predicate Valid() {
      occurrence.Length == DATE && clearance.Length == DATE && occurrence != clearance
    }

    ghost function State(): Record
      reads this, occurrence, clearance
    {
      Record(occurrence[..] + clearance[..], faultType, player, faultCode, exchanged)
    }

    constructor ()
      ensures Valid() && fresh(occurrence) && fresh(clearance) && !exchanged
    {
      occurrence := new byte[DATE](_ => 0);
      clearance := new byte[DATE](_ => 0);
      faultType, player, faultCode, exchanged := 15, 15, 255, false;
    }

    /** The bytes from data[from] on, as many as count, go to a date from position at on. */
    method Fill(date: array<byte>, at: nat, data: seq<byte>, from: nat, count: nat)
      requires at + count <= date.Length && from + count <= |data|
      modifies date
      ensures forall p :: 0 <= p < date.Length ==>
                date[p] == if at <= p < at + count then data[from + p - at] else old(date[p])
    {
      for j := 0 to count
        invariant forall p :: 0 <= p < date.Length ==>
                    date[p] == if at <= p < at + j then data[from + p - at] else old(date[p])
      {
        date[at + j] := data[from + j];
      }
    }

    method HandleFaultLog(data: seq<byte>)
      requires Valid() && Frame(data)
      modifies this, occurrence, clearance
      ensures State() == OnSlice(old(State()), data)
    {
      ghost var before := State();
      match data[0] {
        case 1 =>
          faultType := data[1] % 16;
          player := data[1] / 16;
          if data[2] != 0xFF {
            faultCode := data[2];
          }
          Fill(occurrence, 0, data, 3, 5);
        case 2 => Fill(occurrence, 5, data, 1, 7);
        case 3 => Fill(occurrence, 12, data, 1, 7);
        case 4 =>
          Fill(occurrence, 19, data, 1, 6);
          clearance[0] := data[7];
        case 5 => Fill(clearance, 1, data, 1, 7);
        case 6 => Fill(clearance, 8, data, 1, 7);
        case 7 => Fill(clearance, 15, data, 1, 7);
        case 8 =>
          Fill(clearance, 22, data, 1, 3);
          exchanged := !exchanged;
        case _ =>
      }
      assert State().dates == Dates(before.dates, data);
    }
  }
}
