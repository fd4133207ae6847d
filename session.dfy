/**
 * Successive challenge-response calls on one driver and one tag. Connection
 * handling is idempotent: the timeout is applied once per connection
 * establishment, right after it, and never again while the tag stays connected.
 */
module Session {
  import opened Wrappers
  import opened Apdu
  import opened IsoDep
  import opened YubiKey

  datatype Request = Request(slot: Slot, challenge: seq<byte>)

  /** The results of the calls, in order, and the tag's state after the last one. */
  function Run(s: TagState, requests: seq<Request>): (r: (seq<ChallengeResult>, TagState))
    ensures |r.0| == |requests|
    ensures r.1.connectFault == s.connectFault
    ensures |s.log| <= |r.1.log| && r.1.log[..|s.log|] == s.log
    ensures s.connected ==> r.1.connected
    decreases |requests|
  {
    if requests == [] then ([], s)
    else
      var c := ChallengeResponseSpec(s, requests[0].slot, requests[0].challenge);
      var (rest, t) := Run(c.after, requests[1..]);
      assert c.after.log[..|s.log|] == s.log;
      assert t.log[..|s.log|] == t.log[..|c.after.log|][..|s.log|];
      ([c.result] + rest, t)
  }

  /**
   * Every timeout in the log is the fixed one and comes right after a
   * successful connect, and every successful connect is followed by it.
   */
  predicate TimeoutPolicy(log: seq<Op>) {
    && (forall i | 0 <= i < |log| && log[i].SetTimeout? ::
          log[i].ms == ConnectTimeoutMs && 0 < i && log[i - 1] == Connect(None))
    && (forall i | 0 <= i < |log| && log[i] == Connect(None) ::
          i + 1 < |log| && log[i + 1] == SetTimeout(ConnectTimeoutMs))
  }

  lemma {:induction false} CallKeepsTimeoutPolicy(s: TagState, slot: Slot, challenge: seq<byte>)
    requires TimeoutPolicy(s.log)
    ensures TimeoutPolicy(ChallengeResponseSpec(s, slot, challenge).after.log)
  {
    var c := ChallengeResponseSpec(s, slot, challenge);
    var log := c.after.log;
    assert log == s.log + c.setup + c.exchanges;
    forall i | 0 <= i < |log| && log[i].SetTimeout?
      ensures log[i].ms == ConnectTimeoutMs && 0 < i && log[i - 1] == Connect(None)
    {
      if i < |s.log| {
        assert log[i] == s.log[i];
        assert log[i - 1] == s.log[i - 1];
      }
    }
    forall i | 0 <= i < |log| && log[i] == Connect(None)
      ensures i + 1 < |log| && log[i + 1] == SetTimeout(ConnectTimeoutMs)
    {
      if i < |s.log| {
        assert log[i] == s.log[i];
        assert log[i + 1] == s.log[i + 1];
      }
    }
  }

  /** Any number of calls keeps the timeout policy of the tag's log. */
  lemma {:induction false} RunKeepsTimeoutPolicy(s: TagState, requests: seq<Request>)
    requires TimeoutPolicy(s.log)
    ensures TimeoutPolicy(Run(s, requests).1.log)
    decreases |requests|
  {
    if requests != [] {
      var c := ChallengeResponseSpec(s, requests[0].slot, requests[0].challenge);
      CallKeepsTimeoutPolicy(s, requests[0].slot, requests[0].challenge);
      RunKeepsTimeoutPolicy(c.after, requests[1..]);
    }
  }

  /** A connected tag is never connected again nor given a new timeout: calls only exchange. */
  lemma {:induction false} ConnectedTagOnlyExchanges(s: TagState, requests: seq<Request>)
    requires s.connected
    ensures var t := Run(s, requests).1;
      && t.connected && t.timeout == s.timeout
      && forall i | |s.log| <= i < |t.log| :: t.log[i].Transceive?
    decreases |requests|
  {
    if requests != [] {
      var c := ChallengeResponseSpec(s, requests[0].slot, requests[0].challenge);
      ConnectedTagOnlyExchanges(c.after, requests[1..]);
      var t := Run(s, requests).1;
      assert t == Run(c.after, requests[1..]).1;
      forall i | |s.log| <= i < |t.log| ensures t.log[i].Transceive? {
        if i < |c.after.log| {
          assert t.log[i] == c.after.log[i];
          assert c.after.log[i] == c.exchanges[i - |s.log|];
        }
      }
    }
  }

  /** However many calls are made, the timeout is set at most once. */
  lemma {:induction false} TimeoutSetAtMostOnce(s: TagState, requests: seq<Request>)
    ensures var t := Run(s, requests).1;
      forall i, j | |s.log| <= i < j < |t.log| :: !(t.log[i].SetTimeout? && t.log[j].SetTimeout?)
    decreases |requests|
  {
    if requests != [] {
      var c := ChallengeResponseSpec(s, requests[0].slot, requests[0].challenge);
      var t := Run(s, requests).1;
      assert t == Run(c.after, requests[1..]).1;
      var mid := |c.after.log|;
      assert c.after.log == s.log + c.setup + c.exchanges;
      if c.setup == [Connect(None), SetTimeout(ConnectTimeoutMs)] {
        ConnectedTagOnlyExchanges(c.after, requests[1..]);
        forall i, j | |s.log| <= i < j < |t.log| && t.log[i].SetTimeout?
          ensures !t.log[j].SetTimeout?
        {
          if j < mid {
            assert t.log[i] == c.after.log[i];
            assert t.log[j] == c.after.log[j];
            if j >= |s.log| + 2 {
              assert c.after.log[j] == c.exchanges[j - |s.log| - 2];
            }
          }
        }
      } else {
        TimeoutSetAtMostOnce(c.after, requests[1..]);
        forall i | |s.log| <= i < mid ensures !t.log[i].SetTimeout? {
          assert t.log[i] == c.after.log[i];
          if i >= |s.log| + |c.setup| {
            assert c.after.log[i] == c.exchanges[i - |s.log| - |c.setup|];
          }
        }
      }
    }
  }
}
