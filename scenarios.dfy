/**
 * Callers of the driver against scripted tags: what each can conclude from the
 * driver's contract alone.
 */
module Scenarios {
  import opened Wrappers
  import opened Apdu
  import opened IsoDep
  import opened YubiKey

  /** The YubiKey applet is missing, the Fidesmo one answers: the PUT's payload comes back. */
  method FallbackApplet(slot: Slot, challenge: seq<byte>, digest: seq<byte>)
    requires slot.challengeResponse
  {
    var tag := new Tag(false, 0, [Reply(false, []), Reply(true, []), Reply(true, digest)], None);
    var key := new NfcYubiKey(tag);
    var r := key.ChallengeResponse(slot, challenge);
    assert r == Ok(digest);
    assert tag.connected && tag.timeout == ConnectTimeoutMs;
    assert tag.log == [
      Connect(None), SetTimeout(ConnectTimeoutMs),
      Transceive(Select(ChallengeAidYubiKey), Reply(false, [])),
      Transceive(Select(ChallengeAidFidesmo), Reply(true, [])),
      Transceive(Put(slot, challenge), Reply(true, digest))];
  }

  /** Neither applet can be selected: the call fails and no PUT goes out. */
  method NoApplet(slot: Slot, challenge: seq<byte>)
    requires slot.challengeResponse
  {
    var tag := new Tag(true, 500, [Reply(false, []), Reply(false, [])], None);
    var key := new NfcYubiKey(tag);
    var r := key.ChallengeResponse(slot, challenge);
    assert r == Failed;
    assert tag.timeout == 500;
    assert tag.log == [
      Transceive(Select(ChallengeAidYubiKey), Reply(false, [])),
      Transceive(Select(ChallengeAidFidesmo), Reply(false, []))];
  }

  /** The tag is removed after the first SELECT: the connection is lost, nothing else is sent. */
  method TagRemoved(slot: Slot, challenge: seq<byte>)
    requires slot.challengeResponse
  {
    var tag := new Tag(true, 500, [Reply(true, [])], None);
    var key := new NfcYubiKey(tag);
    var r := key.ChallengeResponse(slot, challenge);
    assert r == ConnectionLost(TagLost);
    assert tag.log == [
      Transceive(Select(ChallengeAidYubiKey), Reply(true, [])),
      Transceive(Put(slot, challenge), IoError(TagLost))];
  }

  /** A slot without challenge-response is refused before the tag is touched. */
  method WrongSlot(id: nat, challenge: seq<byte>)
  {
    var tag := new Tag(false, 0, [Reply(true, [])], Some(Fault(1)));
    var key := new NfcYubiKey(tag);
    var r := key.ChallengeResponse(Slot(id, false), challenge);
    assert r == SlotNotChallengeResponse;
    assert !tag.connected && tag.log == [];
  }
}
