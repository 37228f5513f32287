/** The vocabulary every other module shares: radio types, block states and
    the state a pair of block bits stands for. */
module Rfkill {

  const RFKILL_TYPE_ALL: int := 0
  const NUM_RFKILL_TYPES: int := 9

  const RFKILL_TYPE_WLAN: RfType := 1
  const RFKILL_TYPE_BLUETOOTH: RfType := 2
  const RFKILL_TYPE_UWB: RfType := 3
  const RFKILL_TYPE_WIMAX: RfType := 4

  /** The type of one radio device. ALL (0) addresses every type at once and no
      device carries it. */
  type RfType = t: int | RFKILL_TYPE_ALL < t < NUM_RFKILL_TYPES witness 1

  datatype Option<+T> = None | Some(value: T)

  datatype KillswitchState = NoAdapter | Unblocked | SoftBlocked | HardBlocked {
    /** The numeric value of the C enumerator; comparisons go through it. */
    function Level(): int {
      match this
      case NoAdapter => -1
      case Unblocked => 0
      case SoftBlocked => 1
      case HardBlocked => 2
    }
  }

  function EventToState(soft: bool, hard: bool): KillswitchState {
    if hard then HardBlocked else if soft then SoftBlocked else Unblocked
  }
}
