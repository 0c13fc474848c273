/** Window sizes that both congestion controllers count in. */
module Segments {
  /** kDefaultTCPMSS of the QUIC library; the file that defines it is not part of this model. */
  const MSS: nat := 1460

  /** kDefaultMinimumCongestionWindow of either sender. */
  const MIN_WINDOW: nat := 4 * MSS
}
