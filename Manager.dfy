/** The class `SerialCommandManager` with the fields of the C++ class,
    updated in place by its methods. Each method is proved to have exactly
    the effect the functions of module Parser and module Wire describe:
    the parser fields move to the state the specification computes, the
    characters written to the serial port are appended to `output`, and
    each invocation of the fallback callback is appended to `received`.

    The serial port is split in two: the bytes available to `readCommands`
    are passed in and the bytes it leaves unread are returned, and what is
    printed is collected in `output`. `millis()` is the parameter `now`. */
module Manager {
  import opened Text
  import opened Wire
  import opened Parser

  class SerialCommandManager {
    // Set by the constructor and never changed.
    const terminator: char                // _terminator
    const commandSeparator: char          // _commandSeperator
    const paramSeparator: char            // _paramSeperator
    const serialTimeout: nat              // _serialTimeout
    const maximumMessageSize: Byte        // _maximumMessageSize
    const hasCallback: bool               // _messageReceivedCallback != nullptr

    // The parser state.
    var readingMessage: bool              // _readingMessage
    var isParsingCommand: bool            // _isParsingCommand
    var isParsingParamName: bool          // _isParsingParamName
    var lastCharTime: nat                 // _lastCharTime
    var incomingMessage: string           // _incomingMessage
    var command: string                   // _command
    const params: array<KeyValue>         // _params[MaximumParameterCount]
    var paramCount: nat                   // _paramCount
    var rawMessage: string                // _rawMessage
    var messageTimeout: bool              // _messageTimeout
    var isDebug: bool                     // _isDebug

    // What the outside world sees.
    var output: string                    // everything printed to the serial port
    var received: seq<Message>            // each invocation of the fallback callback

    /** The configuration as a value. */
    function Cfg(): Config {
      Config(terminator, commandSeparator, paramSeparator, serialTimeout, maximumMessageSize, hasCallback)
    }

    ghost predicate Valid()
      reads this, params
    {
      params.Length == MaximumParameterCount && paramCount <= MaximumParameterCount
    }

    /** The parser fields as a value of the specification. */
    ghost function State(): (p: Parser)
      reads this, params
      ensures Valid() ==> WellFormed(p)
    {
      Parser(readingMessage, isParsingCommand, isParsingParamName, lastCharTime, incomingMessage,
             command, params[..], paramCount, rawMessage, messageTimeout, isDebug)
    }

    /** Lines 12-37: the configuration is stored and nothing is being
        read. The reservations of string capacity have no observable
        effect and are not modelled. */
    constructor (terminator: char, commandSeparator: char, paramSeparator: char,
                 timeoutMilliseconds: nat, maximumMessageSize: Byte, hasCallback: bool)
      ensures Valid() && fresh(params)
      ensures Cfg() == Config(terminator, commandSeparator, paramSeparator, timeoutMilliseconds,
                              maximumMessageSize, hasCallback)
      ensures State() == Initial()
      ensures output == [] && received == []
    {
      this.terminator := terminator;
      this.commandSeparator := commandSeparator;
      this.paramSeparator := paramSeparator;
      this.serialTimeout := timeoutMilliseconds;
      this.maximumMessageSize := maximumMessageSize;
      this.hasCallback := hasCallback;
      readingMessage := false;
      isParsingCommand := true;
      isParsingParamName := true;
      lastCharTime := 0;
      incomingMessage := "";
      command := "";
      params := new KeyValue[MaximumParameterCount](_ => EmptyKeyValue);
      paramCount := 0;
      rawMessage := "";
      messageTimeout := false;
      isDebug := false;
      output := [];
      received := [];
    }

    // ---------------------------------------------------------------------
    // Getters (lines 39-65).

    /** `isTimeout`: whether the last message was abandoned for silence. */
    function IsTimeout(): (b: bool)
      reads this, params
      ensures b == State().timedOut
    {
      messageTimeout
    }

    /** `getCommand`: the command of the last completed message. */
    function GetCommand(): (s: string)
      reads this, params
      ensures s == State().command
    {
      command
    }

    /** `getArgs(index)`: the parameter at `index`, or an empty pair when
        `index` is negative or not below the parameter count. */
    function GetArgs(index: int): (kv: KeyValue)
      requires Valid()
      reads this, params
      ensures 0 <= index < |Args(State())| ==> kv == Args(State())[index]
      ensures !(0 <= index < |Args(State())|) ==> kv == EmptyKeyValue
    {
      if index < 0 || index >= paramCount then EmptyKeyValue else params[index]
    }

    /** `getArgCount`: the number of parameters of the current message. */
    function GetArgCount(): (n: int)
      requires Valid()
      reads this, params
      ensures n == |Args(State())| && 0 <= n <= MaximumParameterCount
    {
      paramCount
    }

    /** `getRawMessage`: every byte of the current message as received. */
    function GetRawMessage(): (s: string)
      reads this, params
      ensures s == State().raw
    {
      rawMessage
    }

    // ---------------------------------------------------------------------
    // Output.

    /** `_serialPort->print`: the text is appended to what was printed. */
    method Print(s: string)
      modifies this
      ensures output == old(output) + s
      ensures State() == old(State()) && received == old(received)
    {
      output := output + s;
    }

    /** The identifier suffix that `sendMessage` and `sendCommand` print
        when an identifier is given (lines 196-197 and 244-245). */
    method PrintIdentifier(identifier: string)
      modifies this
      ensures output == old(output) + IdentifierSuffix(identifier)
      ensures State() == old(State()) && received == old(received)
    {
      if identifier != "" {
        Print(": (" + identifier + ")");
      }
    }

    /** `sendMessage` (lines 232-249). */
    method SendMessage(messageType: string, message: string, identifier: string)
      modifies this
      ensures output == old(output) + MessageText(Cfg(), isDebug, messageType, message, identifier)
      ensures State() == old(State()) && received == old(received)
    {
      if |message| == 0 {
        return;
      }
      if messageType == "DEBUG" && !isDebug {
        return;
      }
      ghost var start := output;
      ghost var labelled := messageType + ":" + message;
      ghost var suffix := IdentifierSuffix(identifier);
      PrintLabelled(messageType, message);
      PrintIdentifier(identifier);
      AppendAssoc(start, labelled, suffix);
      ghost var tail := TerminatorFor(Cfg(), message);
      PrintTerminator(message);
      AppendAssoc(start, labelled + suffix, tail);
    }

    /** Lines 247-248 of `sendMessage`: the terminator is printed unless
        the message already ends with it. */
    method PrintTerminator(message: string)
      modifies this
      ensures output == old(output) + TerminatorFor(Cfg(), message)
      ensures State() == old(State()) && received == old(received)
    {
      if !EndsWithTerminator(Cfg(), message) {
        Print([terminator]);
      }
    }

    /** Lines 240-242 of `sendMessage`: the type, a colon and the
        message. */
    method PrintLabelled(messageType: string, message: string)
      modifies this
      ensures output == old(output) + (messageType + ":" + message)
      ensures State() == old(State()) && received == old(received)
    {
      Print(messageType);
      Print(":");
      Print(message);
    }

    /** `sendError` (lines 251-254): printed whatever the debug mode. */
    method SendError(message: string, identifier: string)
      modifies this
      ensures output == old(output) + ErrorText(Cfg(), message, identifier)
      ensures State() == old(State()) && received == old(received)
    {
      SendMessage("ERR", message, identifier);
    }

    /** `sendDebug` (lines 227-230): printed only in debug mode. */
    method SendDebug(message: string, identifier: string)
      modifies this
      ensures output == old(output) + DebugText(Cfg(), isDebug, message, identifier)
      ensures State() == old(State()) && received == old(received)
    {
      SendMessage("DEBUG", message, identifier);
    }

    /** `sendCommand` (lines 159-200). `args` is the C++ array `params`,
        `None` for `nullptr`; it must hold the clamped number of entries,
        as the loop indexes it without a bound check. */
    method SendCommand(header: string, message: string, identifier: string,
                       args: Option<seq<KeyValue>>, argLength: int)
      requires args.Some? ==> ClampArgs(args, argLength) <= |args.value|
      modifies this
      ensures output == old(output) + CommandText(Cfg(), header, message, identifier, args, argLength)
      ensures State() == old(State()) && received == old(received)
    {
      if |header| == 0 {
        return;
      }
      var n := argLength;
      if n < 0 {
        n := 0;
      }
      if n > MaximumParameterCount {
        n := MaximumParameterCount;
      }
      if n > 0 && args.None? {
        n := 0;
      }
      assert n == ClampArgs(args, argLength);
      var kvs := if n == 0 then [] else args.value[..n];
      ghost var start := output;
      PrintHead(header, message, n > 0);
      ghost var head := output[|start|..];
      PrintParams(kvs);
      ghost var joined := JoinParams(Cfg(), kvs);
      AppendAssoc(start, head, joined);
      ghost var suffix := IdentifierSuffix(identifier);
      PrintIdentifier(identifier);
      AppendAssoc(start, head + joined, suffix);
      Print([terminator]);
      AppendAssoc(start, head + joined + suffix, [terminator]);
    }

    /** Lines 174-183 of `sendCommand`: the header and a command
        separator, then the message, if any, followed by a command
        separator when parameters follow. */
    method PrintHead(header: string, message: string, more: bool)
      modifies this
      ensures output == old(output) + (header + [commandSeparator]
                + (if message != "" then message + (if more then [commandSeparator] else []) else []))
      ensures State() == old(State()) && received == old(received)
    {
      Print(header);
      Print([commandSeparator]);
      if |message| > 0 {
        Print(message);
        if more {
          Print([commandSeparator]);
        }
      }
    }

    /** The loop of `sendCommand` (lines 186-194): each parameter as
        `key`, parameter separator, `value`, with a command separator after
        all but the last. */
    method PrintParams(kvs: seq<KeyValue>)
      modifies this
      ensures output == old(output) + JoinParams(Cfg(), kvs)
      ensures State() == old(State()) && received == old(received)
    {
      var n := |kvs|;
      for i := 0 to n
        invariant State() == old(State()) && received == old(received)
        invariant output == old(output) + (JoinParams(Cfg(), kvs[..i]) + (if 0 < i < n then [commandSeparator] else []))
      {
        ghost var before := output;
        ghost var item := ParamText(Cfg(), kvs[i]);
        Print(kvs[i].key);
        Print([paramSeparator]);
        Print(kvs[i].value);
        assert output == before + item;
        ghost var sep: string := if n - 1 != i then [commandSeparator] else [];
        if n - 1 != i {
          Print([commandSeparator]);
        }
        assert output == before + item + sep;
        ParamsPrefixGrows(Cfg(), kvs, i);
        AppendAssoc(old(output), JoinParams(Cfg(), kvs[..i]) + (if 0 < i then [commandSeparator] else []), item);
        AppendAssoc(old(output), JoinParams(Cfg(), kvs[..i + 1]), sep);
      }
      assert kvs[..n] == kvs;
    }

    // ---------------------------------------------------------------------
    // Input.

    /** Lines 213-216: the value of the single parameter of `DEBUG`, or
        its key when the value is empty, trimmed and upper-cased. */
    static method ReadDebugToken(kv: KeyValue) returns (token: string)
      ensures token == DebugToken(kv)
    {
      token := kv.value;
      if |token| == 0 {
        token := kv.key;
      }
      token := Trim(token);
      token := ToUpper(token);
    }

    /** `processMessage` (lines 202-225): the debug echo of the raw
        message, then the built-in `DEBUG` command. */
    method ProcessMessage() returns (handled: bool)
      requires Valid()
      modifies this
      ensures Valid()
      ensures var r := Process(Cfg(), old(State()));
              State() == r.parser && output == old(output) + r.out && handled == r.handled
      ensures received == old(received)
    {
      ghost var s0 := State();
      ghost var r := Process(Cfg(), s0);
      ghost var echo := DebugText(Cfg(), isDebug, rawMessage, "SerialComdMgr-RawMessage:");
      SendDebug(rawMessage, "SerialComdMgr-RawMessage:");
      if |rawMessage| == 0 {
        return true;
      }
      if command == "DEBUG" {
        HandleDebug();
        AppendAssoc(old(output), echo, CommandText(Cfg(), "DEBUG", if isDebug then "ON" else "OFF", "", None, 0));
        return true;
      }
      return false;
    }

    /** Lines 209-221: the built-in `DEBUG` command. With exactly one
        parameter the debug mode becomes whether it spells `ON`; the
        resulting mode is reported. */
    method HandleDebug()
      requires Valid()
      modifies this
      ensures var on := if old(paramCount) == 1 then DebugToken(old(params[0])) == "ON" else old(isDebug);
              isDebug == on && State() == old(State()).(debug := on) &&
              output == old(output) + CommandText(Cfg(), "DEBUG", if on then "ON" else "OFF", "", None, 0)
      ensures received == old(received)
    {
      if paramCount == 1 {
        var token := ReadDebugToken(params[0]);
        isDebug := token == "ON";
      }
      SendCommand("DEBUG", if isDebug then "ON" else "OFF", "", None, 0);
    }

    /** Lines 86-108: the terminator ends the message. */
    method CompleteMessage()
      requires Valid()
      modifies this
      ensures Valid()
      ensures var r := Complete(Cfg(), old(State()));
              State() == r.parser && output == old(output) + r.out && received == old(received) + r.events
    {
      ghost var q := State();
      ExtractCommand();
      var handled := ProcessMessage();
      if !handled && hasCallback {
        assert params[..paramCount] == Args(State());
        received := received + [Message(command, params[..paramCount], rawMessage)];
      }
    }

    /** Lines 88-104: reading stops, the command buffer is trimmed and
        loses its last character when `endsWith` finds the terminator
        there (always, for NUL), and the command is the trimmed text
        before its first command separator. */
    method ExtractCommand()
      requires Valid()
      modifies this
      ensures Valid()
      ensures State() == Extract(Cfg(), old(State()))
      ensures output == old(output) && received == old(received)
    {
      var text := FinishBuffer(Cfg(), incomingMessage);
      var token := CommandFrom(Cfg(), text);
      readingMessage := false;
      incomingMessage := text;
      command := token;
    }

    /** Lines 91-95: the buffer trimmed, then its last character removed
        when `endsWith(String(_terminator))` holds. */
    static method FinishBuffer(cfg: Config, incoming: string) returns (text: string)
      ensures text == FinishedText(cfg, incoming)
    {
      text := Trim(incoming);
      if EndsWithTerminator(cfg, text) {
        text := RemoveFrom(text, |text| - 1);
      }
    }

    /** Lines 97-104: the text before the first command separator, or
        all of it, trimmed. */
    static method CommandFrom(cfg: Config, text: string) returns (token: string)
      ensures token == CommandToken(cfg, text)
    {
      var sepChar := IndexOf(text, cfg.commandSeparator);
      token := if sepChar > -1 then text[..sepChar] else text;
      token := Trim(token);
    }

    /** Lines 111-139: a byte other than the terminator, routed by its
        class and the current mode. */
    method RouteByte(c: char)
      requires Valid() && c != terminator
      modifies this, params
      ensures Valid()
      ensures State() == Route(Cfg(), old(State()), c)
      ensures output == old(output) && received == old(received)
    {
      if c == commandSeparator {
        OpenSlot();
      } else if c == paramSeparator {
        isParsingParamName := false;
      } else if isParsingCommand {
        incomingMessage := incomingMessage + [c];
      } else if paramCount > 0 {
        AppendToSlot(c);
      }
    }

    /** Lines 110-120: a command separator opens the next parameter slot,
        if one is left, and switches to reading its key. */
    method OpenSlot()
      requires Valid()
      modifies this, params
      ensures Valid()
      ensures State() == Route(Cfg(), old(State()), commandSeparator)
      ensures output == old(output) && received == old(received)
    {
      if paramCount < MaximumParameterCount {
        paramCount := paramCount + 1;
        params[paramCount - 1] := EmptyKeyValue;
      }
      isParsingCommand := false;
      isParsingParamName := true;
    }

    /** Lines 131-137: a content byte outside command mode extends the key
        or the value of the last open slot. */
    method AppendToSlot(c: char)
      requires Valid() && !isParsingCommand && paramCount > 0
      requires c != commandSeparator && c != paramSeparator
      modifies params
      ensures Valid()
      ensures State() == Route(Cfg(), old(State()), c)
      ensures output == old(output) && received == old(received)
    {
      var kv := params[paramCount - 1];
      if isParsingParamName {
        params[paramCount - 1] := kv.(key := kv.key + [c]);
      } else {
        params[paramCount - 1] := kv.(value := kv.value + [c]);
      }
    }

    /** The body of the loop of `readCommands` (lines 71-146) for the byte
        `c` read at time `now`. */
    method Step(c: char, now: nat) returns (outcome: Outcome)
      requires Valid()
      modifies this, params
      ensures Valid()
      ensures var s := StepSpec(Cfg(), old(State()), c, now);
              State() == s.parser && output == old(output) + s.out &&
              received == old(received) + s.events && outcome == s.outcome
    {
      BeginByte(c, now);
      if c == terminator {
        CompleteMessage();
        return Completed;
      }
      outcome := AdvanceByte(c);
    }

    /** Lines 72-84: the arrival time is recorded, a byte that arrives
        while no message is read starts a new one, and the byte is added
        to the raw message. */
    method BeginByte(c: char, now: nat)
      requires Valid()
      modifies this
      ensures Valid()
      ensures State() == Begin(old(State()), c, now)
      ensures output == old(output) && received == old(received)
    {
      lastCharTime := now;
      if !readingMessage {
        StartMessage();
      }
      rawMessage := rawMessage + [c];
    }

    /** Lines 74-82: a byte that arrives while no message is read starts
        a new one from empty buffers, in command mode. */
    method StartMessage()
      requires Valid() && !readingMessage
      modifies this
      ensures Valid()
      ensures State() == old(State()).(reading := true, timedOut := false, parsingCommand := true,
                                       raw := "", incoming := "", paramCount := 0)
      ensures output == old(output) && received == old(received)
    {
      readingMessage := true;
      messageTimeout := false;
      isParsingCommand := true;
      rawMessage := "";
      incomingMessage := "";
      paramCount := 0;
    }

    /** Lines 111-146: a byte other than the terminator is routed, then
        the command buffer is checked against the size limit. */
    method AdvanceByte(c: char) returns (outcome: Outcome)
      requires Valid() && c != terminator
      modifies this, params
      ensures Valid()
      ensures var s := Advance(Cfg(), old(State()), c);
              State() == s.parser && output == old(output) + s.out &&
              received == old(received) && outcome == s.outcome
    {
      RouteByte(c);
      if |incomingMessage| > maximumMessageSize {
        SendError("Too Long", ManagerName);
        readingMessage := false;
        return TooLong;
      }
      return Continue;
    }

    /** Lines 149-156: the timeout check at the end of `readCommands`. */
    method CheckMessageTimeout(now: nat)
      requires Valid()
      modifies this
      ensures Valid()
      ensures var t := CheckTimeout(Cfg(), old(State()), now);
              State() == t.0 && output == old(output) + t.1 && received == old(received)
    {
      if readingMessage && now - lastCharTime > serialTimeout {
        SendError("Timeout", ManagerName);
        messageTimeout := true;
        readingMessage := false;
      }
    }

    /** `readCommands` (lines 66-157) with the bytes `available` on the
        serial port and the clock reading `now`; returns the bytes it left
        unread. */
    method ReadCommands(available: string, now: nat) returns (rest: string)
      requires Valid()
      modifies this, params
      ensures Valid()
      ensures var r := Run(Cfg(), old(State()), available, now);
              State() == r.parser && output == old(output) + r.out &&
              received == old(received) + r.events && rest == r.rest
    {
      ghost var goal := Run(Cfg(), State(), available, now);
      var i := 0;
      while i < |available|
        invariant 0 <= i <= |available| && Valid()
        invariant var r := Run(Cfg(), State(), available[i..], now);
                  r.parser == goal.parser && r.rest == goal.rest &&
                  old(output) + goal.out == output + r.out &&
                  old(received) + goal.events == received + r.events
        decreases |available| - i
      {
        assert available[i..][0] == available[i] && available[i..][1..] == available[i + 1..];
        ghost var r := Run(Cfg(), State(), available[i..], now);
        ghost var s := StepSpec(Cfg(), State(), available[i], now);
        ghost var outBefore := output;
        ghost var receivedBefore := received;
        RunFirstByte(Cfg(), State(), available[i..], now);
        var outcome := Step(available[i], now);
        if outcome == TooLong {
          return available[i + 1..];
        }
        if outcome == Completed {
          ghost var t := CheckTimeout(Cfg(), State(), now);
          CheckMessageTimeout(now);
          AppendAssoc(outBefore, s.out, t.1);
          i := i + 1;
          return available[i..];
        }
        assert s.out == [] && s.events == [];
        assert output == outBefore && received == receivedBefore;
        assert State() == s.parser;
        assert Run(Cfg(), State(), available[i + 1..], now) == r;
        i := i + 1;
      }
      assert available[i..] == [];
      CheckMessageTimeout(now);
      rest := [];
    }
  }
}
