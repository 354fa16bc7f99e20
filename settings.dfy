/** Configuration consumed by the group-order coordinator. */
module Settings {

  /** How recent (in hours) an active group order must be for an overwrite to need confirmation. */
  const ConfirmationNeededTimeThreshold: nat := 2

  /** The same threshold in seconds, the unit of the clock readings. */
  const ThresholdSeconds: nat := ConfirmationNeededTimeThreshold * 60 * 60
}
