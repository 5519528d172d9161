/** The checkpointer handed to an application's record processor. */
module RecordProcessor {
  import opened LeaseTypes
  import opened LeaseRules
  import opened Partition
  import opened Checkpointer

  class RecordProcessorCheckpointer {
    const shard: ShardStatus
    const checkpointer: DynamoCheckpoint

    constructor (shard: ShardStatus, checkpointer: DynamoCheckpoint)
      ensures this.shard == shard && this.checkpointer == checkpointer
    {
      this.shard, this.checkpointer := shard, checkpointer;
    }

    /** Without a sequence number the shard is finished.  The cache moves even when the write
        fails; the write replaces the row, whoever owns it by now, and drops any claim. */
    method Checkpoint(sequenceNumber: Option<nat>, write: Reply) returns (r: Result<(), LeaseError>)
      modifies shard`checkpoint, checkpointer.table
      ensures var position := if sequenceNumber.Some? then At(sequenceNumber.value) else ShardEnd;
              var row := RowIn(checkpointer.table.rows, shard.id);
              && shard.View() == old(shard.View()).(checkpoint := position)
              && (r.Ok? <==> write == Answered)
              && (write == Dropped ==> checkpointer.table.rows == old(checkpointer.table.rows))
              && (write != Dropped ==>
                    && checkpointer.table.rows ==
                          old(checkpointer.table.rows)[shard.id := CheckpointItem(shard.View(), shard.parent)]
                    && CheckpointOf(row) == Some(position) && ClaimOf(row).None?
                    && OwnerOf(row) == Some(old(shard.assignedTo)) && TimeoutOf(row) == Some(old(shard.leaseTimeout)))
      ensures write != Dropped ==>
                checkpointer.table.rows == old(checkpointer.table.rows)[shard.id := Row(
                  Some(old(shard.assignedTo)), Some(old(shard.leaseTimeout)),
                  Some(if sequenceNumber == None then ShardEnd else At(sequenceNumber.value)), None,
                  if shard.parent == NoShard then None else Some(shard.parent))]
      ensures shard.checkpoint == if sequenceNumber == None then ShardEnd else At(sequenceNumber.value)
    {
      if sequenceNumber.None? {
        shard.SetCheckpoint(ShardEnd);
      } else {
        shard.SetCheckpoint(At(sequenceNumber.value));
      }
      r := checkpointer.CheckpointSequence(shard, write);
    }
  }
}
