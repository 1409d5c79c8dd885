/** The behaviour of `SerialCommandManager::readCommands` and
    `processMessage` as functions on a value that holds every field they
    read or write. The class in module Manager is proved to follow these
    functions step for step; the lemmas here state what the parser
    promises. */
module Parser {
  import opened Text
  import opened Wire

  /** The parser's fields, named after the members of the C++ class. */
  datatype Parser = Parser(
    reading: bool,              // _readingMessage
    parsingCommand: bool,       // _isParsingCommand
    parsingParamName: bool,     // _isParsingParamName
    lastCharTime: nat,          // _lastCharTime
    incoming: string,           // _incomingMessage: the command-mode bytes
    command: string,            // _command
    params: seq<KeyValue>,      // _params[MaximumParameterCount]
    paramCount: nat,            // _paramCount
    raw: string,                // _rawMessage
    timedOut: bool,             // _messageTimeout
    debug: bool)                // _isDebug

  /** The slot array has its fixed size and the count stays within it. */
  predicate WellFormed(p: Parser) {
    |p.params| == MaximumParameterCount && p.paramCount <= MaximumParameterCount
  }

  /** The state after construction. The C++ constructor leaves
      `_paramCount` and `_messageTimeout` uninitialised; they start at 0
      and false here. */
  function Initial(): (p: Parser)
    ensures WellFormed(p) && !p.reading && !p.debug && !p.timedOut
    ensures Args(p) == [] && p.command == "" && p.raw == ""
  {
    Parser(false, true, true, 0, "", "", seq(MaximumParameterCount, _ => EmptyKeyValue), 0, "", false, false)
  }

  /** The parameters of the current message, as `getArgs` exposes them. */
  function Args(p: Parser): seq<KeyValue>
    requires WellFormed(p)
  {
    p.params[..p.paramCount]
  }

  /** `getArgs(index)`: the slot, or an empty pair outside [0, count). */
  function ArgAt(p: Parser, index: int): (kv: KeyValue)
    requires WellFormed(p)
    ensures 0 <= index < |Args(p)| ==> kv == Args(p)[index]
    ensures !(0 <= index < |Args(p)|) ==> kv == EmptyKeyValue
  {
    if index < 0 || index >= p.paramCount then EmptyKeyValue else p.params[index]
  }

  /** What the fallback callback can observe through the getters when it
      is invoked. */
  datatype Message = Message(command: string, args: seq<KeyValue>, raw: string)

  function Snapshot(p: Parser): Message
    requires WellFormed(p)
  {
    Message(p.command, Args(p), p.raw)
  }

  /** How the loop body ends: on to the next byte, `break` after a
      completed message, or `return` after an overflow. */
  datatype Outcome = Continue | Completed | TooLong

  /** One byte's effect: the new state, the characters written to the
      transport, and the fallback invocations. */
  datatype StepResult = StepResult(parser: Parser, out: string, events: seq<Message>, outcome: Outcome)

  /** Lines 72-84: the arrival time is recorded, a byte that arrives while
      no message is being read starts a new one, and every byte is added
      to the raw message. */
  function Begin(p: Parser, c: char, now: nat): (q: Parser)
    ensures q.reading && q.lastCharTime == now && q.debug == p.debug && q.command == p.command
    ensures q.raw == (if p.reading then p.raw else "") + [c]
    ensures p.reading ==> q.incoming == p.incoming && q.paramCount == p.paramCount && q.timedOut == p.timedOut
    ensures !p.reading ==> q.incoming == "" && q.paramCount == 0 && !q.timedOut && q.parsingCommand
  {
    var q := if p.reading then p
             else p.(reading := true, timedOut := false, parsingCommand := true,
                     raw := "", incoming := "", paramCount := 0);
    q.(lastCharTime := now, raw := q.raw + [c])
  }

  /** Lines 111-139: a byte other than the terminator is routed by its
      class and the current mode. */
  function Route(cfg: Config, p: Parser, c: char): (q: Parser)
    requires WellFormed(p)
    ensures WellFormed(q)
    ensures q.raw == p.raw && q.lastCharTime == p.lastCharTime && q.timedOut == p.timedOut && q.reading == p.reading
  {
    if c == cfg.commandSeparator then
      var withSlot := if p.paramCount < MaximumParameterCount
                    then p.(paramCount := p.paramCount + 1, params := p.params[p.paramCount := EmptyKeyValue])
                    else p;
      withSlot.(parsingCommand := false, parsingParamName := true)
    else if c == cfg.paramSeparator then
      p.(parsingParamName := false)
    else if p.parsingCommand then
      p.(incoming := p.incoming + [c])
    else if p.paramCount > 0 then
      var i := p.paramCount - 1;
      var kv := p.params[i];
      p.(params := p.params[i := if p.parsingParamName then kv.(key := kv.key + [c])
                                 else kv.(value := kv.value + [c])])
    else
      p
  }

  /** Lines 91-95: the command buffer trimmed, then one trailing
      terminator removed. */
  function FinishedText(cfg: Config, incoming: string): (r: string)
    ensures r <= Trim(incoming) && |r| + 1 >= |Trim(incoming)|
    ensures cfg.terminator == '\0' && Trim(incoming) != "" ==> |r| + 1 == |Trim(incoming)|
    ensures cfg.terminator != '\0' && cfg.terminator !in incoming ==> r == Trim(incoming)
  {
    var t := Trim(incoming);
    if EndsWithTerminator(cfg, t) then RemoveFrom(t, |t| - 1) else t
  }

  /** Lines 97-104: the text before the first command separator, trimmed. */
  function CommandToken(cfg: Config, text: string): (r: string)
    ensures |r| <= |text| && cfg.commandSeparator !in r
    ensures r != [] ==> !IsSpace(r[0]) && !IsSpace(r[|r| - 1])
  {
    var sep := IndexOf(text, cfg.commandSeparator);
    Trim(if sep > -1 then text[..sep] else text)
  }

  /** Lines 91-104: the command that completion takes from the command
      buffer. */
  function CommandOf(cfg: Config, incoming: string): string {
    CommandToken(cfg, FinishedText(cfg, incoming))
  }

  datatype Processed = Processed(parser: Parser, out: string, handled: bool)

  /** The single parameter of a `DEBUG` command: its value, or its key
      when the value is empty, trimmed and upper-cased. */
  function DebugToken(kv: KeyValue): (r: string)
    ensures forall k :: 0 <= k < |r| ==> !('a' <= r[k] <= 'z')
    ensures r != [] ==> !IsSpace(r[0]) && !IsSpace(r[|r| - 1])
  {
    ToUpper(Trim(if |kv.value| == 0 then kv.key else kv.value))
  }

  /** `processMessage` (lines 202-225): the raw message is echoed in debug
      mode, and the built-in `DEBUG` command is handled. */
  function Process(cfg: Config, p: Parser): (r: Processed)
    requires WellFormed(p)
    ensures r.parser == p.(debug := r.parser.debug)
  {
    var echo := DebugText(cfg, p.debug, p.raw, "SerialComdMgr-RawMessage:");
    if |p.raw| == 0 then Processed(p, echo, true)
    else if p.command == "DEBUG" then
      var debug := if p.paramCount == 1 then DebugToken(p.params[0]) == "ON" else p.debug;
      Processed(p.(debug := debug),
                echo + CommandText(cfg, "DEBUG", if debug then "ON" else "OFF", "", None, 0),
                true)
    else Processed(p, echo, false)
  }

  /** Lines 88-104: reading stops, the command buffer becomes its
      finished text and the command is taken from it; nothing else
      changes. */
  function Extract(cfg: Config, q: Parser): (r: Parser)
    ensures r == q.(reading := false, incoming := r.incoming, command := r.command)
  {
    var text := FinishedText(cfg, q.incoming);
    q.(reading := false, incoming := text, command := CommandOf(cfg, q.incoming))
  }

  /** Lines 86-108: the terminator ends the message; the command is
      extracted, `processMessage` runs, and the fallback is invoked when
      it did not handle the message and a callback was given. */
  function Complete(cfg: Config, q: Parser): (r: StepResult)
    requires WellFormed(q)
    ensures WellFormed(r.parser) && !r.parser.reading && r.outcome == Completed && |r.events| <= 1
    ensures r.parser.raw == q.raw && r.parser.lastCharTime == q.lastCharTime && r.parser.timedOut == q.timedOut
    ensures r.parser.params == q.params && r.parser.paramCount == q.paramCount
  {
    var done := Extract(cfg, q);
    var pm := Process(cfg, done);
    var events := if !pm.handled && cfg.hasCallback then [Snapshot(pm.parser)] else [];
    StepResult(pm.parser, pm.out, events, Completed)
  }

  const ManagerName := "SerialCommandManager"

  /** The body of the `while` loop of `readCommands` (lines 71-146) for
      one byte `c` read at time `now`. */
  function StepSpec(cfg: Config, p: Parser, c: char, now: nat): (r: StepResult)
    requires WellFormed(p)
    ensures WellFormed(r.parser)
    ensures r.outcome == Completed <==> c == cfg.terminator
    ensures r.outcome != Completed ==> r.events == []
    ensures r.outcome == Continue ==> r.out == [] && r.parser.reading
    ensures r.outcome != Continue ==> !r.parser.reading
    ensures |r.events| <= 1
  {
    var q := Begin(p, c, now);
    if c == cfg.terminator then Complete(cfg, q) else Advance(cfg, q, c)
  }

  /** Lines 111-146: a byte other than the terminator is routed, then the
      command buffer is checked against the size limit. */
  function Advance(cfg: Config, q: Parser, c: char): (r: StepResult)
    requires WellFormed(q)
    ensures WellFormed(r.parser) && r.events == [] && r.outcome != Completed
    ensures r.parser.raw == q.raw && r.parser.lastCharTime == q.lastCharTime && r.parser.timedOut == q.timedOut
  {
    var routed := Route(cfg, q, c);
    if |routed.incoming| > cfg.maximumMessageSize then
      StepResult(routed.(reading := false), ErrorText(cfg, "Too Long", ManagerName), [], TooLong)
    else
      StepResult(routed, "", [], Continue)
  }

  /** Lines 149-156: a message in progress whose last byte is older than
      the timeout is abandoned. Time is a natural number: a clock that
      went backwards (`now < lastCharTime`) never times out here. */
  function CheckTimeout(cfg: Config, p: Parser, now: nat): (r: (Parser, string))
    ensures r.1 != "" <==> p.reading && now - p.lastCharTime > cfg.timeout
    ensures r.0 == (if r.1 == "" then p else p.(timedOut := true, reading := false))
    ensures r.0.reading ==> now - r.0.lastCharTime <= cfg.timeout
  {
    if p.reading && now - p.lastCharTime > cfg.timeout then
      (p.(timedOut := true, reading := false), ErrorText(cfg, "Timeout", ManagerName))
    else (p, "")
  }

  /** The result of one call of `readCommands`: the new state, what was
      written, the fallback invocations and the bytes left in the queue. */
  datatype RunResult = RunResult(parser: Parser, out: string, events: seq<Message>, rest: string)

  /** One call of `readCommands` while `input` is available and the clock
      reads `now`. It reads bytes until a message completes, overflows, or
      the input runs out, and then checks the timeout unless it overflowed. */
  function Run(cfg: Config, p: Parser, input: string, now: nat): (r: RunResult)
    requires WellFormed(p)
    ensures WellFormed(r.parser)
    decreases |input|
  {
    if input == [] then
      var t := CheckTimeout(cfg, p, now);
      RunResult(t.0, t.1, [], [])
    else
      var s := StepSpec(cfg, p, input[0], now);
      match s.outcome
      case TooLong => RunResult(s.parser, s.out, s.events, input[1..])
      case Completed =>
        var t := CheckTimeout(cfg, s.parser, now);
        RunResult(t.0, s.out + t.1, s.events, input[1..])
      case Continue =>
        var r := Run(cfg, s.parser, input[1..], now);
        RunResult(r.parser, s.out + r.out, s.events + r.events, r.rest)
  }

  // -----------------------------------------------------------------------
  // What one byte does.

  /** The invariant every reachable state keeps: the slot count is within
      bounds, separators and the terminator never enter the command buffer,
      and while a message is read the buffer is within the size limit and
      the parser is in command mode exactly when no slot is open. */
  predicate Invariant(cfg: Config, p: Parser) {
    WellFormed(p) && Plain(cfg, p.incoming) &&
    (p.reading ==> |p.incoming| <= cfg.maximumMessageSize && (p.parsingCommand <==> p.paramCount == 0))
  }

  lemma InitialInvariant(cfg: Config)
    ensures Invariant(cfg, Initial())
  {
  }

  /** Finishing keeps a buffer free of special characters. On such a
      buffer the command is the trimmed buffer, except with a NUL
      terminator: `endsWith` then always holds, so the last character of
      the trimmed buffer is dropped before the command is taken. */
  lemma PlainCommand(cfg: Config, incoming: string)
    requires Plain(cfg, incoming)
    ensures Plain(cfg, FinishedText(cfg, incoming))
    ensures cfg.terminator != '\0' ==>
              FinishedText(cfg, incoming) == Trim(incoming) && CommandOf(cfg, incoming) == Trim(incoming)
    ensures cfg.terminator == '\0' ==>
              CommandOf(cfg, incoming) == Trim(RemoveFrom(Trim(incoming), |Trim(incoming)| - 1))
  {
    var i, j := TrimIsInnerSlice(incoming);
    var t := Trim(incoming);
    assert forall k :: 0 <= k < |t| ==> t[k] == incoming[i + k];
    var u := FinishedText(cfg, incoming);
    if cfg.terminator == '\0' {
      assert u == RemoveFrom(t, |t| - 1);
    } else {
      assert !EndsWith(t, cfg.terminator);
      assert u == t;
      TrimKeepsTrimmed(incoming);
    }
    assert forall k :: 0 <= k < |u| ==> u[k] == t[k];
    assert cfg.commandSeparator !in u;
  }

  lemma {:induction false} StepKeepsInvariant(cfg: Config, p: Parser, c: char, now: nat)
    requires Invariant(cfg, p)
    ensures Invariant(cfg, StepSpec(cfg, p, c, now).parser)
  {
    var q := Begin(p, c, now);
    assert Invariant(cfg, q);
    if c == cfg.terminator {
      PlainCommand(cfg, q.incoming);
    } else {
      AdvanceKeepsInvariant(cfg, q, c);
    }
  }

  lemma AdvanceKeepsInvariant(cfg: Config, q: Parser, c: char)
    requires Invariant(cfg, q) && q.reading && c != cfg.terminator
    ensures Invariant(cfg, Advance(cfg, q, c).parser)
  {
    var routed := Route(cfg, q, c);
    assert Plain(cfg, routed.incoming) by {
      if !IsSpecial(cfg, c) && q.parsingCommand {
        assert routed.incoming == q.incoming + [c];
      }
    }
  }

  lemma CheckTimeoutKeepsInvariant(cfg: Config, p: Parser, now: nat)
    requires Invariant(cfg, p)
    ensures Invariant(cfg, CheckTimeout(cfg, p, now).0)
  {
  }

  /** A whole call of `readCommands` keeps the invariant. */
  lemma {:induction false} RunKeepsInvariant(cfg: Config, p: Parser, input: string, now: nat)
    requires Invariant(cfg, p)
    ensures Invariant(cfg, Run(cfg, p, input, now).parser)
    decreases |input|
  {
    if input == [] {
      CheckTimeoutKeepsInvariant(cfg, p, now);
    } else {
      var s := StepSpec(cfg, p, input[0], now);
      StepKeepsInvariant(cfg, p, input[0], now);
      if s.outcome == Continue {
        RunKeepsInvariant(cfg, s.parser, input[1..], now);
      } else if s.outcome == Completed {
        CheckTimeoutKeepsInvariant(cfg, s.parser, now);
      }
    }
  }

  /** Every byte read is recorded in the raw message and stamps the arrival
      time. A byte that arrives while no message is read starts a new one:
      the raw message restarts with that byte, the timeout flag is cleared,
      and the command buffer and the parameter count start from empty. */
  lemma StepRecordsByte(cfg: Config, p: Parser, c: char, now: nat)
    requires WellFormed(p)
    ensures var r := StepSpec(cfg, p, c, now).parser;
            r.raw == (if p.reading then p.raw else []) + [c] &&
            r.lastCharTime == now &&
            r.timedOut == (p.reading && p.timedOut)
  {
    var q := Begin(p, c, now);
    var r := StepSpec(cfg, p, c, now);
    if c == cfg.terminator {
      assert r == Complete(cfg, q);
    } else {
      assert r == Advance(cfg, q, c);
    }
  }

  /** A byte that arrives while no message is read starts a new one: the
      command buffer and the parameter count start from empty. */
  lemma StepStartsMessage(cfg: Config, p: Parser, c: char, now: nat)
    requires WellFormed(p) && !p.reading
    ensures var r := StepSpec(cfg, p, c, now).parser;
            r.paramCount == (if c == cfg.commandSeparator && c != cfg.terminator then 1 else 0) &&
            r.incoming == (if IsSpecial(cfg, c) then [] else [c])
  {
    var q := Begin(p, c, now);
    var r := StepSpec(cfg, p, c, now);
    if c == cfg.terminator {
      assert r == Complete(cfg, q);
      assert Trim([]) == [];
      assert FinishedText(cfg, []) == [];
    } else {
      var routed := Route(cfg, q, c);
      assert r.parser == routed || r.parser == routed.(reading := false);
    }
  }

  /** A content byte of a message in progress lands in exactly one place:
      the command buffer in command mode, otherwise the key (before a
      parameter separator) or the value (after one) of the last open slot.
      Under the invariant no content byte is dropped; every other slot is
      left alone. */
  lemma StepRoutesContent(cfg: Config, p: Parser, c: char, now: nat)
    requires Invariant(cfg, p) && p.reading && !IsSpecial(cfg, c)
    ensures var r := StepSpec(cfg, p, c, now).parser;
            var n := p.paramCount;
            (p.parsingCommand ==> r.incoming == p.incoming + [c] && Args(r) == Args(p)) &&
            (!p.parsingCommand ==>
               r.incoming == p.incoming && n >= 1 && r.paramCount == n &&
               r.params[..n - 1] == p.params[..n - 1] &&
               r.params[n - 1] == (if p.parsingParamName
                                   then KeyValue(p.params[n - 1].key + [c], p.params[n - 1].value)
                                   else KeyValue(p.params[n - 1].key, p.params[n - 1].value + [c])))
  {
  }

  /** A command separator opens a fresh empty slot while fewer than
      MaximumParameterCount are open, and in every case switches to
      reading a parameter key. */
  lemma StepOpensSlot(cfg: Config, p: Parser, c: char, now: nat)
    requires Invariant(cfg, p) && p.reading
    requires c == cfg.commandSeparator && c != cfg.terminator
    ensures var r := StepSpec(cfg, p, c, now);
            r.outcome == Continue &&
            Args(r.parser) == (if p.paramCount < MaximumParameterCount then Args(p) + [EmptyKeyValue] else Args(p)) &&
            !r.parser.parsingCommand && r.parser.parsingParamName && r.parser.incoming == p.incoming
  {
    var r := StepSpec(cfg, p, c, now).parser;
    if p.paramCount < MaximumParameterCount {
      assert Args(r) == Args(p) + [EmptyKeyValue];
    }
  }

  /** A parameter separator only switches from key to value. */
  lemma StepSwitchesToValue(cfg: Config, p: Parser, c: char, now: nat)
    requires Invariant(cfg, p) && p.reading
    requires c == cfg.paramSeparator && c != cfg.terminator && c != cfg.commandSeparator
    ensures var r := StepSpec(cfg, p, c, now);
            r.outcome == Continue &&
            r.parser == p.(parsingParamName := false, lastCharTime := now, raw := p.raw + [c])
  {
  }

  /** Once all MaximumParameterCount slots are open, a further separator
      opens nothing, so the bytes after it extend the key of the last
      slot. */
  lemma ExtraSeparatorExtendsLastKey(cfg: Config, p: Parser, d: char, now: nat)
    requires Invariant(cfg, p) && p.reading && p.paramCount == MaximumParameterCount
    requires cfg.commandSeparator != cfg.terminator && !IsSpecial(cfg, d)
    ensures var r1 := StepSpec(cfg, p, cfg.commandSeparator, now);
            var r2 := StepSpec(cfg, r1.parser, d, now);
            r1.outcome == Continue && r2.outcome == Continue &&
            Args(r2.parser) == Args(p)[..4] + [KeyValue(Args(p)[4].key + [d], Args(p)[4].value)]
  {
    var r1 := StepSpec(cfg, p, cfg.commandSeparator, now);
    StepOpensSlot(cfg, p, cfg.commandSeparator, now);
    StepKeepsInvariant(cfg, p, cfg.commandSeparator, now);
    StepRoutesContent(cfg, r1.parser, d, now);
    var r2 := StepSpec(cfg, r1.parser, d, now);
    assert Args(r2.parser) == r2.parser.params[..4] + [r2.parser.params[4]];
  }

  /** Only a command-mode content byte can overflow: the length check
      covers the command buffer alone, so parameter bytes are not counted.
      An overflow writes exactly one `Too Long` error and stops reading. */
  lemma StepOverflow(cfg: Config, p: Parser, c: char, now: nat)
    requires Invariant(cfg, p)
    ensures var r := StepSpec(cfg, p, c, now);
            var q := Begin(p, c, now);
            (r.outcome == TooLong <==>
               !IsSpecial(cfg, c) && q.parsingCommand && |q.incoming| == cfg.maximumMessageSize) &&
            (r.outcome == TooLong ==>
               r.out == ErrorText(cfg, "Too Long", ManagerName) && r.events == [] && !r.parser.reading)
  {
  }

  /** The `Too Long` line as it appears on the wire: the manager's name as
      identifier and one terminator, unless the text `Too Long` itself
      already ends with the terminator character. */
  lemma TooLongLine(cfg: Config)
    ensures cfg.terminator != 'g' && cfg.terminator != '\0' ==>
              ErrorText(cfg, "Too Long", ManagerName) == "ERR:Too Long: (SerialCommandManager)" + [cfg.terminator]
    ensures cfg.terminator == 'g' || cfg.terminator == '\0' ==>
              ErrorText(cfg, "Too Long", ManagerName) == "ERR:Too Long: (SerialCommandManager)"
  {
    ManagerErrorLine(cfg, "Too Long");
    assert EndsWithTerminator(cfg, "Too Long") <==> cfg.terminator == 'g' || cfg.terminator == '\0';
    TooLongSpelled();
  }

  /** The `Timeout` line as it appears on the wire. */
  lemma TimeoutLine(cfg: Config)
    ensures cfg.terminator != 't' && cfg.terminator != '\0' ==>
              ErrorText(cfg, "Timeout", ManagerName) == "ERR:Timeout: (SerialCommandManager)" + [cfg.terminator]
    ensures cfg.terminator == 't' || cfg.terminator == '\0' ==>
              ErrorText(cfg, "Timeout", ManagerName) == "ERR:Timeout: (SerialCommandManager)"
  {
    ManagerErrorLine(cfg, "Timeout");
    assert EndsWithTerminator(cfg, "Timeout") <==> cfg.terminator == 't' || cfg.terminator == '\0';
    TimeoutSpelled();
  }

  /** The two error lines the manager writes about itself, spelled out. */
  lemma TooLongSpelled()
    ensures "ERR:" + "Too Long" + ": (SerialCommandManager)" == "ERR:Too Long: (SerialCommandManager)"
  {
    assert "ERR:" + "Too Long" == "ERR:Too Long";
  }

  lemma TimeoutSpelled()
    ensures "ERR:" + "Timeout" + ": (SerialCommandManager)" == "ERR:Timeout: (SerialCommandManager)"
  {
    assert "ERR:" + "Timeout" == "ERR:Timeout";
  }

  /** An error the manager reports about itself: `ERR:`, the text, its
      own name as identifier, then the terminator unless the text already
      ends with one. */
  lemma ManagerErrorLine(cfg: Config, text: string)
    requires text != []
    ensures ErrorText(cfg, text, ManagerName)
         == "ERR:" + text + ": (SerialCommandManager)" + (if EndsWithTerminator(cfg, text) then [] else [cfg.terminator])
  {
    assert IdentifierSuffix(ManagerName) == ": (SerialCommandManager)" by {
      assert ": (" + "SerialCommandManager" == ": (SerialCommandManager";
    }
    assert "ERR" + ":" == "ERR:";
  }

  /** The terminator completes the message: reading stops, the command is
      taken from the command buffer, which for any terminator but NUL
      gives the trimmed buffer (separators never entered it, so the split
      at the first separator takes it whole), the
      parameters are kept, and the fallback runs once exactly when the
      command is not the built-in `DEBUG` and a callback was given. */
  lemma StepCompletes(cfg: Config, p: Parser, c: char, now: nat)
    requires Invariant(cfg, p) && c == cfg.terminator
    ensures var r := StepSpec(cfg, p, c, now);
            var command := if p.reading then CommandOf(cfg, p.incoming) else [];
            r.outcome == Completed && !r.parser.reading &&
            r.parser.command == command &&
            Args(r.parser) == (if p.reading then Args(p) else []) &&
            r.events == (if command != "DEBUG" && cfg.hasCallback then [Snapshot(r.parser)] else [])
    ensures p.reading && cfg.terminator != '\0' ==> StepSpec(cfg, p, c, now).parser.command == Trim(p.incoming)
  {
    var q := Begin(p, c, now);
    assert StepSpec(cfg, p, c, now) == Complete(cfg, q);
    CompleteDispatches(cfg, q);
    PlainCommand(cfg, q.incoming);
    if !p.reading {
      assert Trim([]) == [];
      assert FinishedText(cfg, []) == [];
    }
  }

  /** Completion of a non-empty message: the command is taken from the
      command buffer, and the fallback is invoked once exactly for a
      command other than `DEBUG` when a callback was given. */
  lemma CompleteDispatches(cfg: Config, q: Parser)
    requires WellFormed(q) && q.raw != []
    ensures var r := Complete(cfg, q);
            r.parser.command == CommandOf(cfg, q.incoming) &&
            r.events == (if CommandOf(cfg, q.incoming) != "DEBUG" && cfg.hasCallback then [Snapshot(r.parser)] else [])
  {
    var done := Extract(cfg, q);
    var pm := Process(cfg, done);
    assert pm.handled <==> done.command == "DEBUG";
  }

  /** With a NUL terminator the line `PING` followed by NUL yields the
      command `PIN`: the last character of the buffer is taken for the
      terminator. */
  lemma NulTerminatorExample(cfg: Config)
    requires cfg.terminator == '\0' && cfg.commandSeparator !in "PING"
    ensures CommandOf(cfg, "PING") == "PIN"
  {
    assert Trim("PING") == "PING";
    assert FinishedText(cfg, "PING") == "PIN";
    assert "PIN" == "PING"[..3];
    assert IndexOf("PIN", cfg.commandSeparator) == -1;
    assert Trim("PIN") == "PIN";
  }

  // -----------------------------------------------------------------------
  // The built-in DEBUG command.

  /** The spellings that switch debug mode on: `ON` in any letter case. */
  lemma DebugTokenIsOn(kv: KeyValue)
    ensures var t := Trim(if |kv.value| == 0 then kv.key else kv.value);
            DebugToken(kv) == "ON" <==> t == "ON" || t == "On" || t == "oN" || t == "on"
  {
    var t := Trim(if |kv.value| == 0 then kv.key else kv.value);
    UpperIsOn(t);
  }

  lemma UpperIsOn(t: string)
    ensures ToUpper(t) == "ON" <==> t == "ON" || t == "On" || t == "oN" || t == "on"
  {
    var u := ToUpper(t);
    if |t| == 2 {
      UpperToOAndN(t[0]);
      UpperToOAndN(t[1]);
      assert u == [UpperChar(t[0]), UpperChar(t[1])];
      assert u == "ON" <==> UpperChar(t[0]) == 'O' && UpperChar(t[1]) == 'N';
    } else {
      assert |u| != 2;
    }
  }

  /** `DEBUG` with exactly one parameter sets debug mode to whether that
      parameter spells `ON`; with any other count the mode is kept. The
      reply is `DEBUG`, a separator and `ON` or `OFF`, after the debug echo
      of the raw message, and the fallback is not consulted. */
  lemma DebugCommand(cfg: Config, p: Parser)
    requires WellFormed(p) && p.raw != [] && p.command == "DEBUG"
    ensures Process(cfg, p).handled
    ensures Process(cfg, p).parser
         == p.(debug := if p.paramCount == 1 then DebugToken(p.params[0]) == "ON" else p.debug)
    ensures var on := if p.paramCount == 1 then DebugToken(p.params[0]) == "ON" else p.debug;
            Process(cfg, p).out == DebugText(cfg, p.debug, p.raw, "SerialComdMgr-RawMessage:")
                                   + ("DEBUG" + [cfg.commandSeparator] + (if on then "ON" else "OFF") + [cfg.terminator])
  {
    var on := if p.paramCount == 1 then DebugToken(p.params[0]) == "ON" else p.debug;
    DebugReply(cfg, on);
  }

  /** The reply to `DEBUG`: the command, a separator, the mode and the
      terminator. */
  lemma DebugReply(cfg: Config, on: bool)
    ensures CommandText(cfg, "DEBUG", if on then "ON" else "OFF", "", None, 0)
         == "DEBUG" + [cfg.commandSeparator] + (if on then "ON" else "OFF") + [cfg.terminator]
  {
    BareCommandText(cfg, "DEBUG", if on then "ON" else "OFF");
  }

  /** The debug echo of a completed message: its raw text already ends
      with the terminator, so the identifier suffix comes after that
      terminator and the echo line itself ends without one. */
  lemma RawEchoAfterTerminator(cfg: Config, raw: string)
    requires EndsWith(raw, cfg.terminator) && cfg.terminator != ')'
    requires cfg.terminator !in "SerialComdMgr-RawMessage:"
    ensures var out := DebugText(cfg, true, raw, "SerialComdMgr-RawMessage:");
            out[5 + |raw|] == cfg.terminator && !EndsWith(out, cfg.terminator)
  {
    SuffixAfterTerminator(cfg, true, "DEBUG", raw, "SerialComdMgr-RawMessage:");
  }

  /** Any other command is left to the fallback: nothing changes and only
      the debug echo is written. */
  lemma OtherCommand(cfg: Config, p: Parser)
    requires WellFormed(p) && p.raw != [] && p.command != "DEBUG"
    ensures var r := Process(cfg, p);
            !r.handled && r.parser == p &&
            r.out == DebugText(cfg, p.debug, p.raw, "SerialComdMgr-RawMessage:")
  {
  }

  // -----------------------------------------------------------------------
  // A whole call.

  /** With no byte available: an idle parser is left exactly as it was and
      nothing is written; a message in progress is abandoned with one
      `Timeout` error and the timeout flag set exactly when more than the
      timeout has passed since its last byte. */
  lemma RunWithoutInput(cfg: Config, p: Parser, now: nat)
    requires WellFormed(p)
    ensures var r := Run(cfg, p, [], now);
            var expired := p.reading && now - p.lastCharTime > cfg.timeout;
            r.rest == [] && r.events == [] &&
            (!expired ==> r.parser == p && r.out == []) &&
            (expired ==> r.parser == p.(timedOut := true, reading := false) &&
                         r.out == ErrorText(cfg, "Timeout", ManagerName))
  {
  }

  /** What the first byte decides about a call: an overflow or a
      completed message ends it, any other byte leaves the rest of the call
      to the following bytes. */
  lemma RunFirstByte(cfg: Config, p: Parser, input: string, now: nat)
    requires WellFormed(p) && input != []
    ensures var s := StepSpec(cfg, p, input[0], now);
            var r := Run(cfg, p, input, now);
            var t := CheckTimeout(cfg, s.parser, now);
            (s.outcome == TooLong ==> r == RunResult(s.parser, s.out, s.events, input[1..])) &&
            (s.outcome == Completed ==> r == RunResult(t.0, s.out + t.1, s.events, input[1..])) &&
            (s.outcome == Continue ==> r == Run(cfg, s.parser, input[1..], now))
  {
    var s := StepSpec(cfg, p, input[0], now);
    if s.outcome == Continue {
      var r' := Run(cfg, s.parser, input[1..], now);
      assert s.out + r'.out == r'.out && s.events + r'.events == r'.events;
    }
  }

  /** One call consumes only a prefix of the input, completes at most one
      message, and consumes no terminator except as its last byte; when
      bytes are left over, reading has stopped. */
  lemma {:induction false} RunConsumesPrefix(cfg: Config, p: Parser, input: string, now: nat)
    requires WellFormed(p)
    ensures var r := Run(cfg, p, input, now);
            |r.rest| <= |input| && r.rest == input[|input| - |r.rest|..] &&
            |r.events| <= 1 &&
            (forall k :: 0 <= k < |input| - |r.rest| - 1 ==> input[k] != cfg.terminator) &&
            (r.rest != [] ==> !r.parser.reading)
    decreases |input|
  {
    if input != [] {
      var s := StepSpec(cfg, p, input[0], now);
      if s.outcome == Continue {
        RunConsumesPrefix(cfg, s.parser, input[1..], now);
        var r := Run(cfg, p, input, now);
        assert r.rest == input[1..][|input| - 1 - |r.rest|..];
        forall k | 0 <= k < |input| - |r.rest| - 1
          ensures input[k] != cfg.terminator
        {
          if k > 0 {
            assert input[k] == input[1..][k - 1];
          }
        }
      }
    }
  }

  /** An overflow ends the call at once: the remaining bytes stay queued,
      the only output is the one `Too Long` line, and no timeout check
      follows. */
  lemma RunStopsOnOverflow(cfg: Config, p: Parser, input: string, now: nat)
    requires WellFormed(p) && input != [] && StepSpec(cfg, p, input[0], now).outcome == TooLong
    ensures var r := Run(cfg, p, input, now);
            r.rest == input[1..] && r.out == ErrorText(cfg, "Too Long", ManagerName) &&
            r.events == [] && !r.parser.reading
  {
  }

  /** A completed message ends the call: bytes after the terminator stay
      queued for the next call. */
  lemma {:induction false} RunStopsAtTerminator(cfg: Config, p: Parser, input: string, i: nat, now: nat)
    requires WellFormed(p) && i < |input| && input[i] == cfg.terminator
    requires forall k :: 0 <= k < i ==> input[k] != cfg.terminator
    ensures |Run(cfg, p, input, now).rest| >= |input| - i - 1
    decreases i
  {
    var s := StepSpec(cfg, p, input[0], now);
    if i > 0 && s.outcome == Continue {
      RunStopsAtTerminator(cfg, s.parser, input[1..], i - 1, now);
    }
  }
}
