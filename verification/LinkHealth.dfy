/** Link supervision: every pass of the CAN task updates a miss counter per link and then
    receives at most one frame. */
module LinkHealth {
  import opened Wrappers

  /** Misses in a row after which a link has failed. */
  const LIMIT: nat := 3000

  /** failed is the reported state, success the mark set by a frame since the last update. */
  datatype Link = Link(failed: bool, misses: nat, success: bool)

  function Update(l: Link): Link {
    if l.success then Link(false, 0, false)
    else if l.misses + 1 > LIMIT then Link(true, 0, false)
    else Link(l.failed, l.misses + 1, false)
  }

  /** A frame of the link sets the mark. */
  function Hear(l: Link, own: bool): Link {
    if own then l.(success := true) else l
  }

  const START: Link := Link(true, 0, false)

  // ---------------------------------------------------------------- frames

  /** Periodic, fault-info, session and configuration frames speak for the MCU. */
  predicate FromMcu(id: int) {
    id == 0x31 || id == 0x32 || id == 0x33 || id == 0x34
  }

  /** Power module k sends under identifier 0x21 + k; there are ten of them. */
  predicate FromPcm(id: int, k: nat) {
    0x21 <= id <= 0x30 && id - 0x21 == k && k < 10
  }

  /** The frames received in successive passes, at most one in each; own tells which of them
      speak for the link. */
  function Pass(l: Link, own: bool): Link {
    Hear(Update(l), own)
  }

  function Passes(l: Link, own: seq<bool>): Link {
    if own == [] then l else Pass(Passes(l, own[..|own| - 1]), own[|own| - 1])
  }

  /** The link as the update of the next pass sees and leaves it. */
  function Updated(own: seq<bool>): Link {
    Update(Passes(START, own))
  }

  /** One of the last n passes heard the link. */
  predicate HeardWithin(own: seq<bool>, n: nat) {
    exists k :: 0 <= k < |own| && k >= |own| - n && own[k]
  }

  /** The passes since the link was last heard. */
  function Silence(own: seq<bool>): nat {
    if own == [] || own[|own| - 1] then 0 else 1 + Silence(own[..|own| - 1])
  }

  lemma {:induction false} SilenceIs(own: seq<bool>)
    ensures Silence(own) <= |own|
    ensures forall k :: |own| - Silence(own) <= k < |own| ==> !own[k]
    ensures Silence(own) < |own| ==> own[|own| - Silence(own) - 1]
  {
    if own != [] && !own[|own| - 1] {
      SilenceIs(own[..|own| - 1]);
    }
  }

  lemma HeardWithinIs(own: seq<bool>, n: nat)
    ensures HeardWithin(own, n) <==> Silence(own) < |own| && Silence(own) < n
  {
    SilenceIs(own);
  }

  /** After the update that follows these passes: fine with as many misses as passes of
      silence, or failed after more than the limit. */
  lemma {:induction false} UpdatedIs(own: seq<bool>)
    ensures var l := Updated(own);
            && !l.success && l.misses <= LIMIT
            && (if Silence(own) < |own| && Silence(own) <= LIMIT
                then !l.failed && l.misses == Silence(own)
                else l.failed)
  {
    SilenceIs(own);
    if own != [] {
      var front := own[..|own| - 1];
      UpdatedIs(front);
      SilenceIs(front);
      assert Passes(START, own) == Hear(Updated(front), own[|own| - 1]);
    }
  }

  /** A link is reported fine exactly when one of the last 3001 passes heard it. */
  lemma FineIffHeard(own: seq<bool>)
    ensures !Updated(own).failed <==> HeardWithin(own, 3001)
  {
    UpdatedIs(own);
    HeardWithinIs(own, 3001);
  }

  // ---------------------------------------------------------------- the CAN task

  /** The health part of can_task. */
  class CanTask {
    var mcu: Link
    const pcm: array<Link>
    /** What each pass received. */
    ghost var received: seq<Option<int>>

    ghost predicate Valid()
      reads this, pcm
    {
      && pcm.Length == 10
      && mcu == Passes(START, OwnMcu(received))
      && forall k :: 0 <= k < 10 ==> pcm[k] == Passes(START, OwnPcm(received, k))
    }

    constructor ()
      ensures Valid() && received == []
    {
      mcu := START;
      pcm := new Link[10](_ => START);
      received := [];
    }

    method UpdateLink(l: Link) returns (r: Link)
      ensures r == Update(l)
    {
      r := l;
      if !r.success {
        r := r.(misses := r.misses + 1);
        if r.misses > LIMIT {
          r := r.(misses := 0, failed := true);
        }
      } else {
        r := Link(false, 0, false);
      }
    }

    /** The links' health update.  It reports a link fine exactly when one of the last 3001
        passes heard it. */
    method UpdateHealth()
      requires Valid()
      modifies this`mcu, pcm
      ensures mcu == Updated(OwnMcu(received)) && forall k :: 0 <= k < 10 ==> pcm[k] == Updated(OwnPcm(received, k))
      ensures !mcu.failed <==> HeardWithin(OwnMcu(received), 3001)
      ensures forall k :: 0 <= k < 10 ==> (!pcm[k].failed <==> HeardWithin(OwnPcm(received, k), 3001))
    {
      mcu := UpdateLink(mcu);
      for k := 0 to 10
        invariant mcu == Updated(OwnMcu(received))
        invariant forall j :: 0 <= j < 10 ==>
                    pcm[j] == if j < k then Updated(OwnPcm(received, j)) else Passes(START, OwnPcm(received, j))
      {
        pcm[k] := UpdateLink(pcm[k]);
      }
      FineIffHeard(OwnMcu(received));
      forall k | 0 <= k < 10 ensures !pcm[k].failed <==> HeardWithin(OwnPcm(received, k), 3001) {
        FineIffHeard(OwnPcm(received, k));
      }
    }

    /** receive_can_message, as far as the marks are concerned. */
    method ReceiveFrame(frame: Option<int>)
      requires pcm.Length == 10
      requires mcu == Updated(OwnMcu(received)) && forall k :: 0 <= k < 10 ==> pcm[k] == Updated(OwnPcm(received, k))
      modifies this`mcu, this`received, pcm
      ensures Valid() && received == old(received) + [frame]
      ensures mcu == old(mcu).(success := old(mcu.success) || frame in {Some(0x31), Some(0x32), Some(0x33), Some(0x34)})
      ensures forall k :: 0 <= k < 10 ==>
                pcm[k] == old(pcm[k]).(success := old(pcm[k].success) || frame == Some(0x21 + k))
    {
      OwnSnoc(received, frame);
      received := received + [frame];
      if frame.Some? {
        if FromMcu(frame.value) {
          mcu := mcu.(success := true);
        }
        if 0x21 <= frame.value <= 0x30 {
          var k := frame.value - 0x21;
          if k < 10 {
            pcm[k] := pcm[k].(success := true);
          }
        }
      }
    }
  }

  function OwnMcu(received: seq<Option<int>>): (own: seq<bool>) {
    seq(|received|, i requires 0 <= i < |received| => received[i].Some? && FromMcu(received[i].value))
  }

  function OwnPcm(received: seq<Option<int>>, k: nat): (own: seq<bool>) {
    seq(|received|, i requires 0 <= i < |received| => received[i].Some? && FromPcm(received[i].value, k))
  }

  lemma OwnSnoc(received: seq<Option<int>>, frame: Option<int>)
    ensures Passes(START, OwnMcu(received + [frame])) ==
            Pass(Passes(START, OwnMcu(received)), frame.Some? && FromMcu(frame.value))
    ensures forall k: nat :: Passes(START, OwnPcm(received + [frame], k)) ==
                             Pass(Passes(START, OwnPcm(received, k)), frame.Some? && FromPcm(frame.value, k))
  {
    var all := OwnMcu(received + [frame]);
    assert all[..|received|] == OwnMcu(received);
    forall k: nat
      ensures Passes(START, OwnPcm(received + [frame], k)) ==
              Pass(Passes(START, OwnPcm(received, k)), frame.Some? && FromPcm(frame.value, k))
    {
      var own := OwnPcm(received + [frame], k);
      assert own[..|received|] == OwnPcm(received, k);
    }
  }
}
