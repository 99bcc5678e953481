/** The limits every part of the harness shares. */
module Harness {
  const HEADER_SIZE: nat := 28
  const MAX_PACKET_SIZE: nat := 250
  const MAX_STREAMS: nat := 16
}
