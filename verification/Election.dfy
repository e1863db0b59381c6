/**
  The leader elector as the provider uses it. Who holds the lease is environment;
  the lock's identity is the node's ID, so a node leads exactly when the holder
  is that ID.
 */
module Election {
  import opened Text

  /** The leader elector: a node leads when the lease names it. */
  class Elector {
    var holder: Str

    constructor (holder: Str)
      ensures this.holder == holder
    {
      this.holder := holder;
    }

    predicate IsLeader(nodeId: Str)
      reads this
    {
      holder == nodeId
    }
  }
}
