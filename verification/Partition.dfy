/** The status of a shard as one worker caches it; its goroutines share the object. */
module Partition {
  import opened LeaseTypes

  class ShardStatus {
    const id: ShardId
    const parent: ShardId
    var checkpoint: Position
    var assignedTo: WorkerId
    var leaseTimeout: Time
    var claimRequest: WorkerId

    /** The part of the status the lease protocol works on. */
    function View(): Cached
      reads this
    {
      Cached(assignedTo, leaseTimeout, checkpoint)
    }

    constructor (id: ShardId, parent: ShardId)
      ensures this.id == id && this.parent == parent && View() == FRESH && claimRequest == Nobody
      ensures assignedTo == Nobody && leaseTimeout == 0 && checkpoint == Unset
    {
      this.id, this.parent := id, parent;
      checkpoint, assignedTo, leaseTimeout, claimRequest := Unset, Nobody, ZERO_TIME, Nobody;
    }

    method SetLeaseOwner(owner: WorkerId)
      modifies this`assignedTo
      ensures assignedTo == owner && View() == old(View()).(owner := owner)
    {
      assignedTo := owner;
    }

    method SetCheckpoint(c: Position)
      modifies this`checkpoint
      ensures checkpoint == c && View() == old(View()).(checkpoint := c)
    {
      checkpoint := c;
    }

    method IsClaimRequestExpired(cfg: Config, now: Time) returns (expired: bool)
      ensures expired <==> leaseTimeout != ZERO_TIME && leaseTimeout + cfg.claimTimeout < now
    {
      if leaseTimeout == ZERO_TIME {
        return false;
      }
      return leaseTimeout < now - cfg.claimTimeout;
    }
  }
}
