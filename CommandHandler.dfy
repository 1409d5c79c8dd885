/** `BaseCommandHandler`: the `makeParam` overloads that build one
    parameter from numbers and C strings, and the `sendAckOk`/`sendAckErr`
    helpers that format an acknowledgement payload and hand it to
    `SerialCommandManager::sendCommand`.

    A C string is a `CText`, a character sequence without NUL; a pointer
    that may be `nullptr` is an `Option`. */
module CommandHandler {
  import opened Text
  import opened Wire
  import Manager

  /** The key buffer of a parameter holds this many characters plus a NUL. */
  const DefaultMaxParamKeyLength: nat := 10

  /** The value buffer of a parameter holds this many characters plus a NUL. */
  const DefaultMaxParamValueLength: nat := 32

  /** `char payload[64]` (and the flash `errorBuf[64]`): 63 characters
      and the NUL. */
  const AckBufferLength: nat := 63

  /** What a `const char*` points at: the characters before the NUL. */
  type CText = s: string | '\0' !in s

  /** `int` on the supported boards: 16 bits on AVR, 32 bits elsewhere;
      the model takes the wider range, which contains the narrower. */
  type CInt = x: int | -0x8000_0000 <= x < 0x8000_0000

  // ---------------------------------------------------------------------
  // The two ways a field is filled.

  /** `s` is the base-10 text of `n`: an optional `-`, then digits with
      no superfluous leading zero (and no `-0`), and it reads back as
      `n`. */
  ghost predicate Renders(s: string, n: int) {
    s != [] && (s[0] == '-' ==> Canonical(s[1..]) && s[1] != '0') && (s[0] != '-' ==> Canonical(s))
    && ReadInt(s) == n
  }

  /** `Renders` leaves no choice: the one text it admits for `n` is the
      rendering `itoa` produces. */
  lemma RendersExactly(s: string, n: int)
    ensures Renders(s, n) <==> s == IntDecimal(n)
  {
    var r := IntDecimal(n);
    IntDecimalRoundTrip(n);
    if n < 0 {
      assert r[1..] == NatDecimal(-n);
      NatDecimalCanonical(-n);
    } else {
      NatDecimalCanonical(n);
    }
    assert Renders(r, n);
    if Renders(s, n) {
      if s[0] == '-' {
        LeadingDigitPositive(s[1..]);
        CanonicalDecimal(s[1..]);
        assert s == "-" + s[1..];
      } else {
        CanonicalDecimal(s);
      }
    }
  }

  /** `r` is what a buffer of `cap` characters holds after
      `if (src != nullptr) { strncpy(buf, src, cap); buf[cap] = '\0'; }`
      on a zero-initialised buffer: empty for a null pointer, otherwise
      the source itself when it fits and its first `cap` characters when
      it does not. */
  ghost predicate Copied(r: string, src: Option<CText>, cap: nat) {
    match src
    case None => r == ""
    case Some(s) => r <= s && (|s| <= cap ==> r == s) && (|s| > cap ==> |r| == cap)
  }

  /** `Copied` leaves no choice: it is the specification of one string. */
  lemma CopiedIsUnique(r1: string, r2: string, src: Option<CText>, cap: nat)
    requires Copied(r1, src, cap) && Copied(r2, src, cap)
    ensures r1 == r2
  {
    if src.Some? {
      var s := src.value;
      assert r1 == s[..|r1|] && r2 == s[..|r2|];
    }
  }

  /** `strncpy` into a field of `cap` characters, guarded by a null check. */
  function CopyField(src: Option<CText>, cap: nat): (r: string)
    ensures Copied(r, src, cap) && |r| <= cap
  {
    if src.None? then "" else Truncate(src.value, cap)
  }

  /** `itoa(n, buf, 10)` for a byte: at most three digits, no sign. */
  lemma ByteRendering(n: Byte)
    ensures Renders(IntDecimal(n), n) && |IntDecimal(n)| <= 3
    ensures forall k :: 0 <= k < |IntDecimal(n)| ==> IsDigit(IntDecimal(n)[k])
  {
    RendersExactly(IntDecimal(n), n);
    assert Pow10(3) == 1000;
    NatDecimalLength(n, 3);
  }

  /** `itoa(n, buf, 10)` for an `int`: at most a sign and ten digits. */
  lemma IntRendering(n: CInt)
    ensures Renders(IntDecimal(n), n) && |IntDecimal(n)| <= 11
  {
    RendersExactly(IntDecimal(n), n);
    var m: nat := if n < 0 then -(n as int) else n as int;
    assert Pow10(10) == 10_000_000_000 by {
      assert Pow10(1) == 10;
      assert Pow10(2) == 100;
      assert Pow10(3) == 1000;
      assert Pow10(4) == 10_000;
      assert Pow10(5) == 100_000;
      assert Pow10(6) == 1_000_000;
      assert Pow10(7) == 10_000_000;
      assert Pow10(8) == 100_000_000;
      assert Pow10(9) == 1_000_000_000;
    }
    NatDecimalLength(m, 10);
  }

  // ---------------------------------------------------------------------
  // The five `makeParam` overloads (lines 73-135).

  /** `makeParam(uint8_t key, uint8_t value)`: both rendered in base 10. */
  function MakeByteParam(key: Byte, value: Byte): (p: KeyValue)
    ensures Renders(p.key, key) && |p.key| <= DefaultMaxParamKeyLength
    ensures Renders(p.value, value) && |p.value| <= DefaultMaxParamValueLength
  {
    ByteRendering(key);
    ByteRendering(value);
    KeyValue(IntDecimal(key), IntDecimal(value))
  }

  /** `makeParam(uint8_t key, const char* value)`: the key rendered, the
      value copied and truncated, empty when null. */
  function MakeByteKeyParam(key: Byte, value: Option<CText>): (p: KeyValue)
    ensures Renders(p.key, key) && |p.key| <= DefaultMaxParamKeyLength
    ensures Copied(p.value, value, DefaultMaxParamValueLength)
  {
    ByteRendering(key);
    KeyValue(IntDecimal(key), CopyField(value, DefaultMaxParamValueLength))
  }

  /** `makeParam(const char* key, uint8_t value)`: the key copied and
      truncated, empty when null; the value rendered. */
  function MakeNamedByteParam(key: Option<CText>, value: Byte): (p: KeyValue)
    ensures Copied(p.key, key, DefaultMaxParamKeyLength)
    ensures Renders(p.value, value) && |p.value| <= DefaultMaxParamValueLength
  {
    ByteRendering(value);
    KeyValue(CopyField(key, DefaultMaxParamKeyLength), IntDecimal(value))
  }

  /** `makeParam(const char* key, int value)`: as above, with a signed
      value, which always fits its buffer. */
  function MakeNamedIntParam(key: Option<CText>, value: CInt): (p: KeyValue)
    ensures Copied(p.key, key, DefaultMaxParamKeyLength)
    ensures Renders(p.value, value) && |p.value| <= DefaultMaxParamValueLength
    ensures p.value[0] == '-' <==> value < 0
  {
    IntRendering(value);
    IntDecimalRoundTrip(value);
    KeyValue(CopyField(key, DefaultMaxParamKeyLength), IntDecimal(value))
  }

  /** `makeParam(const char* key, char* value)`: both copied and
      truncated, each empty when null, independently of the other. */
  function MakeNamedParam(key: Option<CText>, value: Option<CText>): (p: KeyValue)
    ensures Copied(p.key, key, DefaultMaxParamKeyLength)
    ensures Copied(p.value, value, DefaultMaxParamValueLength)
  {
    KeyValue(CopyField(key, DefaultMaxParamKeyLength), CopyField(value, DefaultMaxParamValueLength))
  }

  /** An over-long key keeps its first ten characters. */
  lemma LongKeyExample()
    ensures MakeNamedByteParam(Some("temperature"), 25) == KeyValue("temperatur", "25")
  {
    assert "temperature"[..10] == "temperatur";
  }

  /** Numbers render in base 10, negative ones with a sign. */
  lemma NumberExamples()
    ensures MakeByteParam(255, 0) == KeyValue("255", "0")
    ensures MakeNamedIntParam(Some("offset"), -32768) == KeyValue("offset", "-32768")
  {
    assert NatDecimal(255) == "255" by {
      assert NatDecimal(25) == "25";
    }
    assert IntDecimal(-32768) == "-32768" by {
      assert NatDecimal(32768) == "32768" by {
        assert NatDecimal(3276) == "3276" by {
          assert NatDecimal(327) == "327" by {
            assert NatDecimal(32) == "32";
          }
        }
      }
    }
  }

  /** A null field is empty while the other is still set. */
  lemma NullFieldExamples()
    ensures MakeByteKeyParam(3, None) == KeyValue("3", "")
    ensures MakeNamedParam(None, Some("dynamic_value")) == KeyValue("", "dynamic_value")
  {
  }

  // ---------------------------------------------------------------------
  // Acknowledgement payloads (lines 3-71).

  /** The error text after `=` in the RAM overload of `sendAckErr`: the
      given text when the pointer is set and the text non-empty, `error`
      otherwise. */
  function ErrorWord(err: Option<CText>): (w: string)
    ensures w != []
    ensures err.Some? && err.value != [] ==> w == err.value
    ensures !(err.Some? && err.value != []) ==> w == "error"
  {
    if err.Some? && err.value != [] then err.value else "error"
  }

  /** `snprintf(payload, 64, "%s=ok", cmd)`. */
  function AckOkPayload(cmd: CText): (r: string)
    ensures |r| <= AckBufferLength && r <= cmd + "=ok"
    ensures |cmd| + 3 <= AckBufferLength ==> r == cmd + "=ok"
  {
    Truncate(cmd + "=ok", AckBufferLength)
  }

  /** The RAM overload: `cmd=err` for a non-empty error, `cmd=error`
      otherwise, cut to the buffer. */
  function AckErrPayload(cmd: CText, err: Option<CText>): (r: string)
    ensures |r| <= AckBufferLength && r <= cmd + "=" + ErrorWord(err)
    ensures |cmd| + 1 + |ErrorWord(err)| <= AckBufferLength ==> r == cmd + "=" + ErrorWord(err)
  {
    Truncate(cmd + "=" + ErrorWord(err), AckBufferLength)
  }

  /** The flash overload: the error text is first copied into a buffer of
      its own (`error` when the pointer is null), then formatted like the
      RAM overload, but without the test for an empty text. */
  function AckErrFlashPayload(cmd: CText, err: Option<CText>): (r: string)
    ensures |r| <= AckBufferLength
  {
    var errorBuf := if err.Some? then Truncate(err.value, AckBufferLength) else "error";
    Truncate(cmd + "=" + errorBuf, AckBufferLength)
  }

  /** Cutting a long error text to its own buffer first changes nothing:
      the payload buffer is never longer than the error buffer. */
  lemma {:induction false} TruncateTail(head: string, tail: string, cap: nat)
    requires |head| >= 1
    ensures Truncate(head + Truncate(tail, cap), cap) == Truncate(head + tail, cap)
  {
    var t := Truncate(tail, cap);
    if |tail| > cap {
      assert |head + t| > cap;
      assert (head + t)[..cap] == (head + tail)[..cap] by {
        forall k | 0 <= k < cap
          ensures (head + t)[k] == (head + tail)[k]
        {
          if k >= |head| {
            assert (head + t)[k] == t[k - |head|];
          }
        }
      }
    }
  }

  /** The two overloads of `sendAckErr` agree on every error text except
      the empty one. */
  lemma FlashAgreesWithRam(cmd: CText, err: Option<CText>)
    requires err.None? || err.value != []
    ensures AckErrFlashPayload(cmd, err) == AckErrPayload(cmd, err)
  {
    if err.Some? {
      AppendAssoc(cmd, "=", err.value);
      AppendAssoc(cmd, "=", Truncate(err.value, AckBufferLength));
      TruncateTail(cmd + "=", err.value, AckBufferLength);
    }
  }

  /** For an empty (non-null) error text the overloads differ: the RAM one
      reports `cmd=error`, the flash one `cmd=` with nothing after it. */
  lemma FlashEmptyErrorDiffers(cmd: CText)
    requires |cmd| + 6 <= AckBufferLength
    ensures AckErrPayload(cmd, Some("")) == cmd + "=error"
    ensures AckErrFlashPayload(cmd, Some("")) == cmd + "="
  {
  }

  /** A payload with room for the command and `=` starts with them,
      whatever the result that follows. */
  lemma AckPayloadStartsWithCommand(cmd: CText, err: Option<CText>)
    requires |cmd| + 1 <= AckBufferLength
    ensures AckOkPayload(cmd)[..|cmd| + 1] == cmd + "="
    ensures AckErrPayload(cmd, err)[..|cmd| + 1] == cmd + "="
    ensures AckErrFlashPayload(cmd, err)[..|cmd| + 1] == cmd + "="
  {
    assert (cmd + "=ok")[..|cmd| + 1] == cmd + "=";
    assert (cmd + "=" + ErrorWord(err))[..|cmd| + 1] == cmd + "=";
    var errorBuf := if err.Some? then Truncate(err.value, AckBufferLength) else "error";
    assert (cmd + "=" + errorBuf)[..|cmd| + 1] == cmd + "=";
  }

  /** What an acknowledgement puts on the wire: `sendCommand("ACK",
      payload)` without parameters, `sendCommand("ACK", payload, "",
      param, paramCount)` with them. */
  function AckText(cfg: Config, payload: string, param: Option<seq<KeyValue>>, paramCount: Byte): (r: string)
    requires param.Some? ==> ClampArgs(param, paramCount) <= |param.value|
    ensures r != [] && r[|r| - 1] == cfg.terminator
  {
    CommandText(cfg, "ACK", payload, "", param, paramCount)
  }

  /** Without parameters the acknowledgement is `ACK`, the separator, the
      payload and the terminator, whatever the count. */
  lemma AckWithoutParams(cfg: Config, payload: string, paramCount: Byte)
    ensures AckText(cfg, payload, None, paramCount) == "ACK" + [cfg.commandSeparator] + payload + [cfg.terminator]
  {
  }

  /** With parameters the payload is followed by the separator and the
      parameters, at most five of them. */
  lemma AckWithParams(cfg: Config, payload: string, param: seq<KeyValue>, paramCount: Byte)
    requires payload != [] && 0 < paramCount <= |param| && paramCount <= MaximumParameterCount
    ensures AckText(cfg, payload, Some(param), paramCount)
            == "ACK" + [cfg.commandSeparator] + payload + [cfg.commandSeparator]
               + JoinParams(cfg, param[..paramCount]) + [cfg.terminator]
  {
  }

  // ---------------------------------------------------------------------
  // The helpers that send (lines 3-71).

  /** `sendAckOk`: nothing when the sender or the command is null,
      otherwise one `ACK:<cmd>=ok` command. */
  method SendAckOk(sender: Manager.SerialCommandManager?, cmd: Option<CText>,
                   param: Option<seq<KeyValue>>, paramCount: Byte)
    requires param.Some? ==> ClampArgs(param, paramCount) <= |param.value|
    modifies sender
    ensures sender != null && cmd.None? ==> sender.output == old(sender.output)
    ensures sender != null && cmd.Some? ==>
              sender.output == old(sender.output) + AckText(sender.Cfg(), AckOkPayload(cmd.value), param, paramCount)
    ensures sender != null ==> sender.State() == old(sender.State()) && sender.received == old(sender.received)
  {
    if sender == null || cmd.None? {
      return;
    }
    var payload := AckOkPayload(cmd.value);
    Send(sender, payload, param, paramCount);
  }

  /** `sendAckErr` with an error text in RAM. */
  method SendAckErr(sender: Manager.SerialCommandManager?, cmd: Option<CText>, err: Option<CText>,
                    param: Option<seq<KeyValue>>, paramCount: Byte)
    requires param.Some? ==> ClampArgs(param, paramCount) <= |param.value|
    modifies sender
    ensures sender != null && cmd.None? ==> sender.output == old(sender.output)
    ensures sender != null && cmd.Some? ==>
              sender.output == old(sender.output) + AckText(sender.Cfg(), AckErrPayload(cmd.value, err), param, paramCount)
    ensures sender != null ==> sender.State() == old(sender.State()) && sender.received == old(sender.received)
  {
    if sender == null || cmd.None? {
      return;
    }
    var payload := AckErrPayload(cmd.value, err);
    Send(sender, payload, param, paramCount);
  }

  /** `sendAckErr` with an error text in flash memory. */
  method SendAckErrFlash(sender: Manager.SerialCommandManager?, cmd: Option<CText>, err: Option<CText>,
                         param: Option<seq<KeyValue>>, paramCount: Byte)
    requires param.Some? ==> ClampArgs(param, paramCount) <= |param.value|
    modifies sender
    ensures sender != null && cmd.None? ==> sender.output == old(sender.output)
    ensures sender != null && cmd.Some? ==>
              sender.output == old(sender.output) + AckText(sender.Cfg(), AckErrFlashPayload(cmd.value, err), param, paramCount)
    ensures sender != null ==> sender.State() == old(sender.State()) && sender.received == old(sender.received)
  {
    if sender == null || cmd.None? {
      return;
    }
    var payload := AckErrFlashPayload(cmd.value, err);
    Send(sender, payload, param, paramCount);
  }

  /** The common tail of the three helpers: the two-argument call of
      `sendCommand` when there are no parameters, the five-argument call
      otherwise. */
  method Send(sender: Manager.SerialCommandManager, payload: string,
              param: Option<seq<KeyValue>>, paramCount: Byte)
    requires param.Some? ==> ClampArgs(param, paramCount) <= |param.value|
    modifies sender
    ensures sender.output == old(sender.output) + AckText(sender.Cfg(), payload, param, paramCount)
    ensures sender.State() == old(sender.State()) && sender.received == old(sender.received)
  {
    if param.None? {
      sender.SendCommand("ACK", payload, "", None, 0);
    } else {
      sender.SendCommand("ACK", payload, "", param, paramCount);
    }
  }
}
