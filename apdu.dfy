/**
 * The commands the driver hands to the tag, seen abstractly: which application
 * is selected, or which slot and challenge are submitted. The byte layout of
 * the ISO/IEC 7816-4 short APDUs is not part of this model.
 */
module Apdu {
  type byte = bv8

  /**
   * A configuration slot of the token. Its identity is opaque; the only thing
   * the driver asks of it is whether it is configured for challenge-response.
   */
  datatype Slot = Slot(id: nat, challengeResponse: bool)

  /** The commands the driver builds: SELECT by application identifier, or PUT. */
  datatype Command =
    | Select(aid: seq<byte>)
    | Put(slot: Slot, challenge: seq<byte>)
}
