/**
  The fall-respawn guard: below the fall threshold the character is put back
  at the respawn point with no vertical velocity. Disabling and re-enabling
  the character controller around the teleport has no effect on this state.
 */
module Respawn {
  import opened Controller

  predicate BelowThreshold(c: Config, s: Player)
  {
    s.position.y < c.fallThreshold
  }

  /** CheckFallRespawn: changes the state only below the threshold, and then only position and vertical velocity. */
  function CheckFallRespawn(c: Config, s: Player): (r: Player)
    ensures !BelowThreshold(c, s) ==> r == s
    ensures BelowThreshold(c, s) ==> r.position == c.respawnPosition && r.verticalVelocity == 0.0
    ensures r.(position := s.position, verticalVelocity := s.verticalVelocity) == s
  {
    if BelowThreshold(c, s) then s.(verticalVelocity := 0.0, position := c.respawnPosition) else s
  }

  /**
    With a respawn point at or above the threshold, the guard leaves the
    character above the threshold, and a second check is a no-op.
   */
  lemma RespawnSettles(c: Config, s: Player)
    requires c.respawnPosition.y >= c.fallThreshold
    ensures !BelowThreshold(c, CheckFallRespawn(c, s))
    ensures CheckFallRespawn(c, CheckFallRespawn(c, s)) == CheckFallRespawn(c, s)
  {
  }

  /** The shipped defaults respawn at the origin, above the -20 threshold. */
  lemma DefaultRespawnSettles(s: Player)
    ensures !BelowThreshold(Defaults, CheckFallRespawn(Defaults, s))
  {
    RespawnSettles(Defaults, s);
  }
}
