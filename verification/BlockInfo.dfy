/** What the tracker remembers about one parachain block. */
module BlockInfo {
  import opened Prelude

  type Core = nat

  datatype BlockState = Backed | PendingAvailability | Included | Dropped

  datatype BlockAvailability = BlockAvailability(current: nat, max: nat) {
    predicate IsSlow() {
      max > 0 && current <= (max / 3) * 2
    }
  }

  datatype ParachainBlockInfo = ParachainBlockInfo(
    candidateHash: Hash,
    availability: Option<BlockAvailability>,
    assignedCore: Core,
    coreOccupied: bool,
    state: BlockState)
  {
    static function New(hash: Hash, core: Core): ParachainBlockInfo {
      ParachainBlockInfo(hash, None, core, false, Backed)
    }

    function SetPending(): ParachainBlockInfo { this.(state := PendingAvailability) }
    function SetIncluded(): ParachainBlockInfo { this.(state := Included) }
    function SetDropped(): ParachainBlockInfo { this.(state := Dropped) }
    function SetAvailability(a: BlockAvailability): ParachainBlockInfo { this.(availability := Some(a)) }

    /** Still waiting for its outcome. */
    predicate IsLive() { state.Backed? || state.PendingAvailability? }
  }
}
