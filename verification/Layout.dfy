/** Sizes that every part of the feed has to agree on. */
module Layout {
  const HEADER_SIZE: nat := 20
  const CRC_SIZE: nat := 4
  const MAX_PAYLOAD: nat := 0x10_0000
}
