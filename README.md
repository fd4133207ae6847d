# NFC YubiKey challenge-response driver, in Dafny

This project models the NFC driver of ykDroid (`NfcYubiKey`), the part of the
app that asks a YubiKey for an HMAC challenge-response over an ISO-DEP
(ISO/IEC 14443-4) tag. One call:

1. checks that the requested slot is a challenge-response slot, and fails
   before touching the tag if it is not;
2. connects the tag if it is not connected, and then sets a 10 000 ms timeout;
3. sends SELECT for the YubiKey challenge-response application
   (`a0 00 00 05 27 20 01`);
4. only if that is refused, sends SELECT for the Fidesmo application
   (`a0 00 00 06 17 00 07 53 4e af 01`), and fails if that is refused too;
5. sends PUT with the slot and the challenge, fails if it is refused, and
   otherwise returns the reply's payload unchanged.

Any I/O failure of the tag (connect or an exchange) ends the call with
`ConnectionLost` carrying the cause; any refused command ends it with `Failed`.

Files:

- `apdu.dfy` (`Apdu`): the slot and the two commands, abstractly.
- `isodep.dfy` (`IsoDep`): a scripted tag. Class `Tag` keeps the connection
  flag, the timeout, a log of every operation (connect, set-timeout, exchange
  with its outcome) and the script of outcomes it will answer with; its
  methods are specified by the pure steps `ConnectStep`, `SetTimeoutStep`,
  `TransceiveStep` on `TagState`.
- `yubikey.dfy` (`YubiKey`): the AID and timeout constants, the result type,
  the specification functions of one call, and class `NfcYubiKey`, whose
  methods `EnsureConnected` and `ChallengeResponse` follow the Java code
  statement by statement and are proved equal to those functions.
- `session.dfy` (`Session`): repeated calls on one driver, and the timeout
  policy they keep.
- `scenarios.dfy` (`Scenarios`): callers that run the driver against
  particular scripts and check what the contract tells them.
- `wrappers.dfy` (`Wrappers`): `Option`.

The code tries the two AIDs as two explicit, nested attempts, and so does the model.

## Model

| member | source | states |
|---|---|---|
| `IsoDep.Tag.Connect` | app/src/main/java/net/pp3345/ykdroid/yubikey/NfcYubiKey.java:43 | the scripted tag logs the connect with its outcome; the tag is connected afterwards unless connecting failed |
| `IsoDep.Tag.SetTimeout` | app/src/main/java/net/pp3345/ykdroid/yubikey/NfcYubiKey.java:44 | the scripted tag records the timeout and logs the call |
| `IsoDep.Tag.Transceive` | app/src/main/java/net/pp3345/ykdroid/yubikey/NfcYubiKey.java:56 | the scripted tag answers with the next scripted outcome (an exhausted script means the tag is gone) and logs command and outcome |
| `YubiKey.NfcYubiKey.constructor` | app/src/main/java/net/pp3345/ykdroid/yubikey/NfcYubiKey.java:37-39 | the driver holds the tag it was given |
| `YubiKey.EnsureConnectedSpec` | app/src/main/java/net/pp3345/ykdroid/yubikey/NfcYubiKey.java:41-46 | a connected tag is left untouched; otherwise connect then setTimeout(10000), in that order, with setTimeout skipped and the cause returned when connect fails |
| `YubiKey.NfcYubiKey.EnsureConnected` | app/src/main/java/net/pp3345/ykdroid/yubikey/NfcYubiKey.java:41-46 | the method's fault and the tag's new state are exactly those of `EnsureConnectedSpec` |
| `YubiKey.PutSpec` | app/src/main/java/net/pp3345/ykdroid/yubikey/NfcYubiKey.java:63-70 | exactly one exchange, PUT with the caller's slot and challenge; success returns the reply payload verbatim, refusal gives Failed, an I/O error gives ConnectionLost with its cause |
| `YubiKey.SelectAndPutSpec` | app/src/main/java/net/pp3345/ykdroid/yubikey/NfcYubiKey.java:55-70 | one to three exchanges answered by the script in order: SELECT YubiKey AID first; SELECT Fidesmo AID iff the first is refused, and only second; an accepted Fidesmo SELECT is followed by the PUT as third and last command; PUT only last and only with the caller's slot and challenge; both refused gives Failed with no PUT; no exchange after an I/O error; Ok, Failed and ConnectionLost each iff the last exchange was an accepted PUT, a refusal, an I/O error |
| `YubiKey.ChallengeResponseSpec` | app/src/main/java/net/pp3345/ykdroid/yubikey/NfcYubiKey.java:49-74 | the slot check fails iff the slot is not challenge-response, and then the tag is untouched; connection handling precedes all exchanges and leaves the log, connection flag and timeout as `EnsureConnectedSpec` does (exchanges change neither flag nor timeout), and is nothing (iff the tag was connected or the slot refused), a failed connect, or connect then setTimeout(10000); a connected tag keeps its timeout; a failed connect sends nothing and gives ConnectionLost; exchanges happen only on a connected tag; at most three commands, first SELECT YubiKey, Fidesmo iff the first is refused, PUT right after whichever SELECT is accepted and last with the caller's slot and challenge, Ok returns the PUT reply's payload; each of the four results characterised both ways |
| `YubiKey.NfcYubiKey.ChallengeResponse` | app/src/main/java/net/pp3345/ykdroid/yubikey/NfcYubiKey.java:48-74 | the method's result and the tag's new state (log, script, connection, timeout) are exactly those of `ChallengeResponseSpec` |
| `Session.Run` | app/src/main/java/net/pp3345/ykdroid/yubikey/NfcYubiKey.java:41-74 | successive calls on one tag give one result per call, only append to the tag's log, and never disconnect a connected tag |
| `Session.CallKeepsTimeoutPolicy` | app/src/main/java/net/pp3345/ykdroid/yubikey/NfcYubiKey.java:41-46 | one call keeps the policy that every setTimeout is setTimeout(10000) directly after a successful connect, and every successful connect is directly followed by it |
| `Session.RunKeepsTimeoutPolicy` | app/src/main/java/net/pp3345/ykdroid/yubikey/NfcYubiKey.java:41-46 | any sequence of calls keeps that policy |
| `Session.ConnectedTagOnlyExchanges` | app/src/main/java/net/pp3345/ykdroid/yubikey/NfcYubiKey.java:41-46 | on a connected tag, any sequence of calls performs exchanges only: no connect, no new timeout |
| `Session.TimeoutSetAtMostOnce` | app/src/main/java/net/pp3345/ykdroid/yubikey/NfcYubiKey.java:41-46 | however many calls are made on one scripted tag (which never drops a connection once made), the timeout is set at most once |

## Left out

- Android's `IsoDep` itself (real connect, transceive, and the effect of the timeout) is replaced by the scripted `IsoDep.Tag`; an exchange in it never changes the connection flag, and connecting fails every time with the tag's fixed fault or never.
- The byte encoding of the SELECT and PUT APDUs and the decoding of the status word (`SelectFileApdu`, `PutApdu`, `PutResponseApdu`) are not part of this model: a command is the abstract `Select(aid)` or `Put(slot, challenge)`, and a decoded reply is `Reply(success, result)` taken from the script.
- `Slot` internals and its slot-selector byte are not part of this model: a slot is an opaque identity with a challenge-response flag, and `ensureChallengeResponseSlot` is the test of that flag.
- The NDEF constants `YUBIKEY_NEO_NDEF_SCHEME` and `YUBIKEY_NEO_NDEF_HOST` are not used by the driver's logic and are left out.
- The exception classes and their messages become the variants of `ChallengeResult`; the I/O cause is an opaque `IoCause` value.
- Concurrent use of one tag from several threads is not addressed by the code and is not modelled.
