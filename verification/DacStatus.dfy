/** What an Ether Dream device says of itself in every reply. */
module DacStatus {

  datatype Playback = Idle | Prepared | Playing

  /** Playback state, points in the ring, and the rate it plays at. */
  datatype Status = Status(playback: Playback, fullness: nat, rate: nat)
}
