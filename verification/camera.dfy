/**
  The angle helper the camera uses for its pitch: one wrap by a full turn
  towards the ±360 range, then Mathf.Clamp.
 */
module Camera {

  /**
    Mathf.Clamp: below min gives min, otherwise above max gives max. When
    min > max a value below min still yields min.
   */
  function Clamp(v: real, lo: real, hi: real): real
  {
    if v < lo then lo else if v > hi then hi else v
  }

  /** One full turn added below -360 or removed above +360. */
  function Unwind(angle: real): real
  {
    var a := if angle < -360.0 then angle + 360.0 else angle;
    if a > 360.0 then a - 360.0 else a
  }

  /**
    ClampAngle. With a well-formed range the result lies in it, and an angle
    already inside both the range and [-360, 360] is returned unchanged.
   */
  function ClampAngle(angle: real, lo: real, hi: real): (r: real)
    ensures lo <= hi ==> lo <= r <= hi
    ensures -360.0 <= angle <= 360.0 && lo <= angle <= hi ==> r == angle
    ensures r == lo || r == hi || r == Unwind(angle)
    ensures Unwind(angle) < lo ==> r == lo
    ensures lo <= Unwind(angle) && Unwind(angle) > hi ==> r == hi
    ensures lo <= Unwind(angle) <= hi ==> r == Unwind(angle)
  {
    Clamp(Unwind(angle), lo, hi)
  }

  /**
    When the range itself lies within one turn either side of zero, clamping
    an already clamped angle changes nothing, so the pitch does not drift on
    frames that add no look input.
   */
  lemma ClampAngleIdempotent(angle: real, lo: real, hi: real)
    requires -360.0 <= lo <= hi <= 360.0
    ensures ClampAngle(ClampAngle(angle, lo, hi), lo, hi) == ClampAngle(angle, lo, hi)
  {
  }

  /** The wrap moves an angle by a whole number of turns (zero or one). */
  lemma UnwindIsWholeTurns(angle: real)
    ensures Unwind(angle) == angle || Unwind(angle) == angle + 360.0 || Unwind(angle) == angle - 360.0
    ensures -360.0 <= angle <= 360.0 ==> Unwind(angle) == angle
  {
  }
}
