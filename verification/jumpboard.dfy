/**
  The jump board: a trigger zone that writes the controller's jump
  multiplier when the player's collider enters or leaves it.

  The tag comparison and the component lookup are inputs: a collider carries
  its tag and whether it has a controller.
 */
module Jumpboard {
  import opened Controller

  datatype Collider = Collider(tag: string, hasController: bool)

  /** Both conditions the callbacks test before writing. */
  predicate IsPlayer(other: Collider)
  {
    other.tag == "Player" && other.hasController
  }

  /** OnTriggerEnter: the player's multiplier becomes the board's boost; anything else changes nothing. */
  function OnTriggerEnter(boost: real, other: Collider, multiplier: real): (r: real)
    ensures IsPlayer(other) ==> r == boost
    ensures !IsPlayer(other) ==> r == multiplier
  {
    if IsPlayer(other) then boost else multiplier
  }

  /** OnTriggerExit: the player's multiplier returns to exactly 1, whatever it was. */
  function OnTriggerExit(other: Collider, multiplier: real): (r: real)
    ensures IsPlayer(other) ==> r == NormalJumpMultiplier
    ensures !IsPlayer(other) ==> r == multiplier
  {
    if IsPlayer(other) then NormalJumpMultiplier else multiplier
  }

  /** Entering then leaving a board restores the normal multiplier, whatever the boost. */
  lemma EnterThenExitRestores(boost: real, other: Collider, multiplier: real)
    requires IsPlayer(other)
    ensures OnTriggerExit(other, OnTriggerEnter(boost, other, multiplier)) == NormalJumpMultiplier
  {
  }

  /** Repeating either callback changes nothing more. */
  lemma CallbacksIdempotent(boost: real, other: Collider, multiplier: real)
    ensures OnTriggerEnter(boost, other, OnTriggerEnter(boost, other, multiplier)) == OnTriggerEnter(boost, other, multiplier)
    ensures OnTriggerExit(other, OnTriggerExit(other, multiplier)) == OnTriggerExit(other, multiplier)
  {
  }

  /** A callback of one of possibly several overlapping boards. */
  datatype ZoneEvent = Enter(boost: real, other: Collider) | Exit(other: Collider)

  function Apply(multiplier: real, e: ZoneEvent): real
  {
    match e
    case Enter(boost, other) => OnTriggerEnter(boost, other, multiplier)
    case Exit(other) => OnTriggerExit(other, multiplier)
  }

  /** The multiplier after the callbacks, in order. */
  function Replay(multiplier: real, events: seq<ZoneEvent>): real
    decreases |events|
  {
    if |events| == 0 then multiplier else Replay(Apply(multiplier, events[0]), events[1..])
  }

  /** The value an event writes, if it writes at all. */
  datatype Written = Nothing | Wrote(value: real)

  function WrittenBy(e: ZoneEvent): Written
  {
    if !IsPlayer(e.other) then Nothing
    else match e
      case Enter(boost, _) => Wrote(boost)
      case Exit(_) => Wrote(NormalJumpMultiplier)
  }

  /** The last write among the events, searched from the end. */
  function LastWrite(events: seq<ZoneEvent>): Written
    decreases |events|
  {
    if |events| == 0 then Nothing
    else if WrittenBy(events[|events| - 1]).Wrote? then WrittenBy(events[|events| - 1])
    else LastWrite(events[..|events| - 1])
  }

  lemma {:induction false} ReplaySnoc(multiplier: real, events: seq<ZoneEvent>, e: ZoneEvent)
    ensures Replay(multiplier, events + [e]) == Apply(Replay(multiplier, events), e)
    decreases |events|
  {
    if |events| > 0 {
      assert (events + [e])[1..] == events[1..] + [e];
      ReplaySnoc(Apply(multiplier, events[0]), events[1..], e);
    }
  }

  /**
    Last writer wins: after any interleaving of callbacks from any number of
    boards, the multiplier is the value of the last player callback, or the
    initial value when there was none. No stacking of overlapping boards.
   */
  lemma {:induction false} LastWriterWins(multiplier: real, events: seq<ZoneEvent>)
    ensures Replay(multiplier, events) == (match LastWrite(events) case Nothing => multiplier case Wrote(v) => v)
    decreases |events|
  {
    if |events| > 0 {
      var init := events[..|events| - 1];
      var e := events[|events| - 1];
      assert events == init + [e];
      ReplaySnoc(multiplier, init, e);
      LastWriterWins(multiplier, init);
    }
  }

  /**
    One board's exit resets the multiplier to 1 even while another board is
    still entered: whatever came before, a final player exit leaves exactly 1.
   */
  lemma ExitResetsDespiteOverlap(multiplier: real, before: seq<ZoneEvent>, other: Collider)
    requires IsPlayer(other)
    ensures Replay(multiplier, before + [Exit(other)]) == NormalJumpMultiplier
  {
    ReplaySnoc(multiplier, before, Exit(other));
  }
}
