/**
 * The NFC YubiKey driver: one challenge-response call validates the slot,
 * makes sure the tag is connected, selects the challenge-response applet
 * (the YubiKey application first, the Fidesmo one only if that is refused),
 * submits the challenge and hands back the token's answer.
 */
module YubiKey {
  import opened Wrappers
  import opened Apdu
  import opened IsoDep

  /** The response timeout applied right after a connection is established. */
  const ConnectTimeoutMs: int := 10000

  /** Application identifier of the YubiKey challenge-response applet. */
  const ChallengeAidYubiKey: seq<byte> := [0xa0, 0x00, 0x00, 0x05, 0x27, 0x20, 0x01]

  /** Application identifier of the Fidesmo applet, tried when the first is refused. */
  const ChallengeAidFidesmo: seq<byte> :=
    [0xA0, 0x00, 0x00, 0x06, 0x17, 0x00, 0x07, 0x53, 0x4E, 0xAF, 0x01]

  /** The outcome of a challenge-response call; the three failures are the exceptions. */
  datatype ChallengeResult =
    | Ok(response: seq<byte>)
    | SlotNotChallengeResponse
    | Failed
    | ConnectionLost(cause: IoCause)

  /**
   * What one call did: its result, the connection handling it performed on the
   * tag, the exchanges it made, and the tag's state afterwards.
   */
  datatype Call = Call(result: ChallengeResult, setup: seq<Op>, exchanges: seq<Op>, after: TagState)

  function Last<T>(s: seq<T>): T
    requires s != []
  {
    s[|s| - 1]
  }

  /**
   * Connection handling: an already connected tag is left alone; otherwise the
   * tag is connected and, only if that worked, the timeout is set.
   */
  function EnsureConnectedSpec(s: TagState): (r: (Option<IoCause>, TagState))
    ensures s.connected ==> r == (None, s)
    ensures !s.connected ==> r.0 == s.connectFault
    ensures !s.connected && r.0.None? ==>
      r.1 == s.(connected := true, timeout := ConnectTimeoutMs,
                log := s.log + [Connect(None), SetTimeout(ConnectTimeoutMs)])
    ensures !s.connected && r.0.Some? ==> r.1 == s.(log := s.log + [Connect(r.0)])
  {
    if s.connected then (None, s)
    else
      var (fault, s1) := ConnectStep(s);
      if fault.Some? then (fault, s1)
      else (None, SetTimeoutStep(s1, ConnectTimeoutMs))
  }

  /** Submitting the challenge: the last step of a call, once an applet is selected. */
  function PutSpec(s: TagState, slot: Slot, challenge: seq<byte>): (c: Call)
    ensures c.setup == [] && |c.exchanges| == 1
    ensures c.exchanges[0] == Transceive(Put(slot, challenge), NextOutcome(s.script))
    ensures c.after.log == s.log + c.exchanges
    ensures c.result.Ok? <==> Accepted(c.exchanges[0].outcome)
    ensures c.result.Ok? ==> c.exchanges[0].outcome == Reply(true, c.result.response)
    ensures c.result == Failed <==> Rejected(c.exchanges[0].outcome)
    ensures c.result.ConnectionLost? <==> c.exchanges[0].outcome.IoError?
    ensures c.result.ConnectionLost? ==> c.result.cause == c.exchanges[0].outcome.cause
  {
    var put := Put(slot, challenge);
    var (o, s1) := TransceiveStep(s, put);
    var result :=
      if o.IoError? then ConnectionLost(o.cause)
      else if !o.success then Failed
      else Ok(o.result);
    Call(result, [], [Transceive(put, o)], s1)
  }

  /** The applet selection and the challenge submission, on a connected tag. */
  function SelectAndPutSpec(s: TagState, slot: Slot, challenge: seq<byte>): (c: Call)
    ensures c.setup == []
    ensures c.after.log == s.log + c.exchanges
    ensures c.after.connected == s.connected && c.after.timeout == s.timeout
    ensures c.after.connectFault == s.connectFault
    ensures 1 <= |c.exchanges| <= 3
    ensures forall i | 0 <= i < |c.exchanges| ::
      c.exchanges[i].Transceive? && c.exchanges[i].outcome == NthOutcome(s.script, i)
    ensures c.exchanges[0].command == Select(ChallengeAidYubiKey)
    ensures forall i | 0 <= i < |c.exchanges| ::
      c.exchanges[i].command == Select(ChallengeAidFidesmo) <==>
      i == 1 && Rejected(c.exchanges[0].outcome)
    ensures Rejected(c.exchanges[0].outcome) ==> |c.exchanges| >= 2
    ensures Accepted(c.exchanges[0].outcome) ==>
      |c.exchanges| == 2 && c.exchanges[1].command == Put(slot, challenge)
    ensures forall i | 0 <= i < |c.exchanges| :: c.exchanges[i].command.Put? ==>
      c.exchanges[i].command == Put(slot, challenge) && i == |c.exchanges| - 1
    ensures |c.exchanges| >= 2 && Rejected(c.exchanges[0].outcome) && Rejected(c.exchanges[1].outcome) ==>
      c.result == Failed && |c.exchanges| == 2
    ensures |c.exchanges| >= 2 && Rejected(c.exchanges[0].outcome) && Accepted(c.exchanges[1].outcome) ==>
      |c.exchanges| == 3 && c.exchanges[2].command == Put(slot, challenge)
    ensures forall i | 0 <= i < |c.exchanges| - 1 :: c.exchanges[i].outcome.Reply?
    ensures c.result != SlotNotChallengeResponse
    ensures c.result.Ok? <==>
      Last(c.exchanges).command == Put(slot, challenge) && Accepted(Last(c.exchanges).outcome)
    ensures c.result.Ok? ==> Last(c.exchanges).outcome == Reply(true, c.result.response)
    ensures c.result == Failed <==> Rejected(Last(c.exchanges).outcome)
    ensures c.result.ConnectionLost? <==> Last(c.exchanges).outcome.IoError?
    ensures c.result.ConnectionLost? ==> c.result.cause == Last(c.exchanges).outcome.cause
  {
    var primary := Select(ChallengeAidYubiKey);
    var (o1, s1) := TransceiveStep(s, primary);
    if o1.IoError? then
      Call(ConnectionLost(o1.cause), [], [Transceive(primary, o1)], s1)
    else if o1.success then
      var p := PutSpec(s1, slot, challenge);
      Call(p.result, [], [Transceive(primary, o1)] + p.exchanges, p.after)
    else
      var fallback := Select(ChallengeAidFidesmo);
      var (o2, s2) := TransceiveStep(s1, fallback);
      if o2.IoError? then
        Call(ConnectionLost(o2.cause), [], [Transceive(primary, o1), Transceive(fallback, o2)], s2)
      else if !o2.success then
        Call(Failed, [], [Transceive(primary, o1), Transceive(fallback, o2)], s2)
      else
        var p := PutSpec(s2, slot, challenge);
        Call(p.result, [], [Transceive(primary, o1), Transceive(fallback, o2)] + p.exchanges, p.after)
  }

  /**
   * One challenge-response call. The slot check comes before any I/O; every
   * I/O failure ends the call with ConnectionLost, every refusal with Failed.
   */
  function ChallengeResponseSpec(s: TagState, slot: Slot, challenge: seq<byte>): (c: Call)
    ensures c.after.log == s.log + c.setup + c.exchanges
    ensures c.after.connectFault == s.connectFault
    ensures c.result == SlotNotChallengeResponse <==> !slot.challengeResponse
    ensures !slot.challengeResponse ==> c.setup == [] && c.exchanges == [] && c.after == s
    ensures slot.challengeResponse ==> s.log + c.setup == EnsureConnectedSpec(s).1.log
    ensures slot.challengeResponse ==>
      c.after.connected == EnsureConnectedSpec(s).1.connected &&
      c.after.timeout == EnsureConnectedSpec(s).1.timeout
    ensures || c.setup == []
            || (c.setup == [Connect(s.connectFault)] && s.connectFault.Some?)
            || c.setup == [Connect(None), SetTimeout(ConnectTimeoutMs)]
    ensures c.setup == [] <==> (s.connected || !slot.challengeResponse)
    ensures c.setup == [Connect(None), SetTimeout(ConnectTimeoutMs)] ==> c.after.connected
    ensures s.connected ==> c.after.connected && c.after.timeout == s.timeout
    ensures EnsureConnectedSpec(s).0.Some? && slot.challengeResponse ==>
      c.exchanges == [] && c.result == ConnectionLost(s.connectFault.value)
    ensures c.exchanges != [] ==> c.after.connected
    ensures |c.exchanges| <= 3
    ensures forall i | 0 <= i < |c.exchanges| ::
      c.exchanges[i].Transceive? && c.exchanges[i].outcome == NthOutcome(s.script, i)
    ensures c.exchanges != [] ==> c.exchanges[0].command == Select(ChallengeAidYubiKey)
    ensures forall i | 0 <= i < |c.exchanges| ::
      c.exchanges[i].command == Select(ChallengeAidFidesmo) <==>
      i == 1 && Rejected(c.exchanges[0].outcome)
    ensures c.exchanges != [] && Rejected(c.exchanges[0].outcome) ==> |c.exchanges| >= 2
    ensures c.exchanges != [] && Accepted(c.exchanges[0].outcome) ==>
      |c.exchanges| == 2 && c.exchanges[1].command == Put(slot, challenge)
    ensures forall i | 0 <= i < |c.exchanges| :: c.exchanges[i].command.Put? ==>
      c.exchanges[i].command == Put(slot, challenge) && i == |c.exchanges| - 1
    ensures |c.exchanges| >= 2 && Rejected(c.exchanges[0].outcome) && Rejected(c.exchanges[1].outcome) ==>
      c.result == Failed && |c.exchanges| == 2
    ensures |c.exchanges| >= 2 && Rejected(c.exchanges[0].outcome) && Accepted(c.exchanges[1].outcome) ==>
      |c.exchanges| == 3 && c.exchanges[2].command == Put(slot, challenge)
    ensures forall i | 0 <= i < |c.exchanges| - 1 :: c.exchanges[i].outcome.Reply?
    ensures c.result.Ok? <==> (c.exchanges != [] &&
      Last(c.exchanges).command == Put(slot, challenge) && Accepted(Last(c.exchanges).outcome))
    ensures c.result.Ok? ==> Last(c.exchanges).outcome == Reply(true, c.result.response)
    ensures c.result == Failed <==> c.exchanges != [] && Rejected(Last(c.exchanges).outcome)
    ensures c.result.ConnectionLost? <==> (slot.challengeResponse &&
      (EnsureConnectedSpec(s).0.Some? || (c.exchanges != [] && Last(c.exchanges).outcome.IoError?)))
    ensures c.result.ConnectionLost? && c.exchanges != [] ==>
      c.result.cause == Last(c.exchanges).outcome.cause
  {
    if !slot.challengeResponse then
      Call(SlotNotChallengeResponse, [], [], s)
    else
      var (fault, s1) := EnsureConnectedSpec(s);
      var setup := s1.log[|s.log|..];
      assert s1.log == s.log + setup;
      if fault.Some? then
        Call(ConnectionLost(fault.value), setup, [], s1)
      else
        var sp := SelectAndPutSpec(s1, slot, challenge);
        Call(sp.result, setup, sp.exchanges, sp.after)
  }

  /** The driver, holding the tag it was created for. */
  class NfcYubiKey {
    const tag: Tag

    constructor (tag: Tag)
      ensures this.tag == tag
    {
      this.tag := tag;
    }

    method EnsureConnected() returns (fault: Option<IoCause>)
      modifies tag
      ensures (fault, tag.State()) == EnsureConnectedSpec(old(tag.State()))
    {
      fault := None;
      if !tag.connected {
        fault := tag.Connect();
        if fault.Some? {
          return;
        }
        tag.SetTimeout(ConnectTimeoutMs);
      }
    }

    method ChallengeResponse(slot: Slot, challenge: seq<byte>) returns (result: ChallengeResult)
      modifies tag
      ensures var c := ChallengeResponseSpec(old(tag.State()), slot, challenge);
        result == c.result && tag.State() == c.after
    {
      if !slot.challengeResponse {
        return SlotNotChallengeResponse;
      }
      var fault := EnsureConnected();
      if fault.Some? {
        return ConnectionLost(fault.value);
      }
      var selectFile := Select(ChallengeAidYubiKey);
      var reply := tag.Transceive(selectFile);
      if reply.IoError? {
        return ConnectionLost(reply.cause);
      }
      if !reply.success {
        selectFile := Select(ChallengeAidFidesmo);
        reply := tag.Transceive(selectFile);
        if reply.IoError? {
          return ConnectionLost(reply.cause);
        }
        if !reply.success {
          return Failed;
        }
      }
      var put := Put(slot, challenge);
      reply := tag.Transceive(put);
      if reply.IoError? {
        return ConnectionLost(reply.cause);
      }
      if !reply.success {
        return Failed;
      }
      return Ok(reply.result);
    }
  }
}
