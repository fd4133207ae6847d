/**
 * A scripted stand-in for the platform's ISO-DEP (ISO/IEC 14443-4) tag. It
 * records every operation the driver performs on it, in order, and answers
 * each exchange with the next outcome of its script.
 */
module IsoDep {
  import opened Wrappers
  import opened Apdu

  /** Why an I/O operation failed; the cause travels to the caller as data. */
  datatype IoCause = TagLost | Fault(code: nat)

  /** What one exchange yields: a decoded reply, or an I/O failure. */
  datatype Outcome =
    | Reply(success: bool, result: seq<byte>)
    | IoError(cause: IoCause)

  predicate Accepted(o: Outcome) { o.Reply? && o.success }
  predicate Rejected(o: Outcome) { o.Reply? && !o.success }

  /** One operation performed on the tag, as it appears in the tag's log. */
  datatype Op =
    | Connect(fault: Option<IoCause>)
    | SetTimeout(ms: int)
    | Transceive(command: Command, outcome: Outcome)

  /** The observable state of the tag. */
  datatype TagState = TagState(
    connected: bool,
    timeout: int,
    log: seq<Op>,
    script: seq<Outcome>,
    connectFault: Option<IoCause>)

  /** The outcome of the next exchange; a tag whose script is used up is gone. */
  function NextOutcome(script: seq<Outcome>): Outcome {
    if script == [] then IoError(TagLost) else script[0]
  }

  /** The outcome the n-th exchange from now will get. */
  function NthOutcome(script: seq<Outcome>, n: nat): Outcome {
    if n < |script| then script[n] else IoError(TagLost)
  }

  function ConnectStep(s: TagState): (Option<IoCause>, TagState) {
    (s.connectFault,
     s.(connected := s.connected || s.connectFault.None?, log := s.log + [Connect(s.connectFault)]))
  }

  function SetTimeoutStep(s: TagState, ms: int): TagState {
    s.(timeout := ms, log := s.log + [SetTimeout(ms)])
  }

  function TransceiveStep(s: TagState, command: Command): (Outcome, TagState) {
    var o := NextOutcome(s.script);
    (o, s.(log := s.log + [Transceive(command, o)],
           script := if s.script == [] then [] else s.script[1..]))
  }

  class Tag {
    var connected: bool
    var timeout: int
    var log: seq<Op>
    var script: seq<Outcome>
    const connectFault: Option<IoCause>

    function State(): TagState
      reads this
    {
      TagState(connected, timeout, log, script, connectFault)
    }

    constructor (connected: bool, timeout: int, script: seq<Outcome>, connectFault: Option<IoCause>)
      ensures State() == TagState(connected, timeout, [], script, connectFault)
    {
      this.connected := connected;
      this.timeout := timeout;
      this.log := [];
      this.script := script;
      this.connectFault := connectFault;
    }

    /** Connects; the result is the cause of the failure, if it failed. */
    method Connect() returns (fault: Option<IoCause>)
      modifies this
      ensures (fault, State()) == ConnectStep(old(State()))
    {
      fault := connectFault;
      connected := connected || fault.None?;
      log := log + [Op.Connect(fault)];
    }

    method SetTimeout(ms: int)
      modifies this
      ensures State() == SetTimeoutStep(old(State()), ms)
    {
      timeout := ms;
      log := log + [Op.SetTimeout(ms)];
    }

    method Transceive(command: Command) returns (outcome: Outcome)
      modifies this
      ensures (outcome, State()) == TransceiveStep(old(State()), command)
    {
      outcome := NextOutcome(script);
      log := log + [Op.Transceive(command, outcome)];
      if script != [] {
        script := script[1..];
      }
    }
  }
}
