/** The parts of an interaction that the pool, the scheduler and consensus look at. */
module Interactions {
  import opened Foundation

  datatype LockType = MutateLock | ReadLock | NoLock

  datatype ParticipantInfo = ParticipantInfo(lock: LockType, isGenesis: bool)

  datatype Ix = Ix(
    sender: Identifier,
    key: nat,
    seqId: nat,
    hash: Hash,
    size: nat,
    fuelPrice: nat,
    participants: map<Identifier, ParticipantInfo>,
    leader: Identifier)

  /** Queues are kept by sender and key. */
  type QKey = (Identifier, nat)

  function KeyOf(ix: Ix): QKey {
    (ix.sender, ix.key)
  }

  /** A participant the interaction locks: neither created by it nor left unlocked. */
  predicate Locks(ix: Ix, id: Identifier) {
    id in ix.participants && !ix.participants[id].isGenesis && ix.participants[id].lock != NoLock
  }

  function LockedIds(ix: Ix): set<Identifier> {
    set id | id in ix.participants && Locks(ix, id)
  }
}
