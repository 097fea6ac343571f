/** Named constants of the power estimator and of the identity space it uses. */
module Constants {
  /** Component id that asks `getComponentHistory` for the sum over all components. */
  const ALL_COMPONENTS: int := -1

  /** Length of one iteration, in milliseconds. */
  const ITERATION_INTERVAL: int := 1000

  /** Sentinel uid that stands for "every process" of one component (SystemInfo.AID_ALL). */
  const AID_ALL: int := -1

  /** First uid of an application; smaller uids are system identities (SystemInfo.AID_APP). */
  const AID_APP: int := 10000

  /** The log is flushed on every iteration that is a multiple of this. */
  const FLUSH_INTERVAL: int := 30

  /** Battery current is sampled on iterations that are multiples of this. */
  const CURRENT_INTERVAL: int := 60

  /** Battery temperature and charge are logged on multiples of this (5 minutes). */
  const BATTERY_INTERVAL: int := 300

  /** Screen and proxy settings are logged on multiples of this (30 minutes). */
  const SETTINGS_INTERVAL: int := 1800
}
