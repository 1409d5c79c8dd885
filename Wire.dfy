/** The wire format of SerialCommandManager: the parameter record, the
    manager's construction-time configuration, and the outbound serialisers
    `sendCommand` and `sendMessage` (with its `sendError`/`sendDebug`
    wrappers) as functions from their arguments to the exact characters
    they print. */
module Wire {
  import opened Text

  /** `StringKeyValue`: one parameter of a message. */
  datatype KeyValue = KeyValue(key: string, value: string)

  const EmptyKeyValue := KeyValue("", "")

  /** `MaximumParameterCount`: the number of parameter slots. */
  const MaximumParameterCount: nat := 5

  /** `byte`, as used for the maximum message size and the ACK counts. */
  type Byte = x: int | 0 <= x < 256

  /** What the constructor stores and nothing changes afterwards. The
      fallback callback is represented only by whether it was given. */
  datatype Config = Config(
    terminator: char,
    commandSeparator: char,
    paramSeparator: char,
    timeout: nat,
    maximumMessageSize: Byte,
    hasCallback: bool)

  /** The three characters the parser treats specially. */
  predicate IsSpecial(cfg: Config, c: char) {
    c == cfg.terminator || c == cfg.commandSeparator || c == cfg.paramSeparator
  }

  /** `s.endsWith(String(_terminator))` as the manager writes it: with a
      NUL terminator the test holds for every string, because
      `String('\0')` is empty. */
  predicate EndsWithTerminator(cfg: Config, s: string)
    ensures EndsWithTerminator(cfg, s) <==> EndsWithString(s, CharString(cfg.terminator))
  {
    EndsWithChar(s, cfg.terminator);
    cfg.terminator == '\0' || EndsWith(s, cfg.terminator)
  }

  predicate Plain(cfg: Config, s: string) {
    forall k :: 0 <= k < |s| ==> !IsSpecial(cfg, s[k])
  }

  /** The argument count `sendCommand` actually uses: `argLength` clamped
      to [0, MaximumParameterCount], and 0 when there is no array. */
  function ClampArgs(params: Option<seq<KeyValue>>, argLength: int): (n: nat)
    ensures n <= MaximumParameterCount
    ensures params.None? || argLength < 0 ==> n == 0
    ensures params.Some? && 0 <= argLength <= MaximumParameterCount ==> n == argLength
    ensures argLength > MaximumParameterCount && params.Some? ==> n == MaximumParameterCount
  {
    var n := if argLength < 0 then 0 else if argLength > MaximumParameterCount then MaximumParameterCount else argLength;
    if n > 0 && params.None? then 0 else n
  }

  /** A C array argument that may be `nullptr`. */
  datatype Option<T> = None | Some(value: T)

  /** One parameter as printed: key, parameter separator, value. */
  function ParamText(cfg: Config, kv: KeyValue): string {
    kv.key + [cfg.paramSeparator] + kv.value
  }

  /** The parameters as printed by the loop of `sendCommand`: a command
      separator after every parameter but the last. */
  function JoinParams(cfg: Config, kvs: seq<KeyValue>): string
    decreases |kvs|
  {
    if kvs == [] then []
    else if |kvs| == 1 then ParamText(cfg, kvs[0])
    else ParamText(cfg, kvs[0]) + [cfg.commandSeparator] + JoinParams(cfg, kvs[1..])
  }

  /** The identifier suffix; its `:` is a literal, not the configured
      command separator. */
  function IdentifierSuffix(identifier: string): (r: string)
    ensures r == "" <==> identifier == ""
    ensures r != "" ==> |r| == |identifier| + 4 && r[..3] == ": (" && r[|r| - 1] == ')'
  {
    if identifier == "" then "" else ": (" + identifier + ")"
  }

  /** Everything `sendCommand(header, message, identifier, params,
      argLength)` prints. The array must hold the clamped number of
      entries, as C++ indexes it without a bound check. */
  function CommandText(cfg: Config, header: string, message: string, identifier: string,
                       params: Option<seq<KeyValue>>, argLength: int): (r: string)
    requires params.Some? ==> ClampArgs(params, argLength) <= |params.value|
    ensures r == "" <==> header == ""
    ensures r != "" ==> r[|r| - 1] == cfg.terminator
  {
    if header == "" then ""
    else
      var n := ClampArgs(params, argLength);
      var args := if n == 0 then [] else params.value[..n];
      header + [cfg.commandSeparator]
        + (if message != "" then message + (if n > 0 then [cfg.commandSeparator] else []) else [])
        + JoinParams(cfg, args)
        + IdentifierSuffix(identifier)
        + [cfg.terminator]
  }

  /** A command with a message, no parameters and no identifier: header,
      separator, message, terminator. */
  lemma BareCommandText(cfg: Config, header: string, message: string)
    requires header != "" && message != ""
    ensures CommandText(cfg, header, message, "", None, 0) == header + [cfg.commandSeparator] + message + [cfg.terminator]
  {
    assert JoinParams(cfg, []) == [] && IdentifierSuffix("") == [];
  }

  /** Everything `sendMessage(messageType, message, identifier)` prints
      while the debug flag is `debug`. */
  function MessageText(cfg: Config, debug: bool, messageType: string, message: string, identifier: string): (r: string)
    ensures r == "" <==> message == "" || (messageType == "DEBUG" && !debug)
    ensures r != "" ==> |r| > |messageType| + |message| && r[..|messageType| + 1 + |message|] == messageType + ":" + message
  {
    if message == "" then ""
    else if messageType == "DEBUG" && !debug then ""
    else
      var head := messageType + ":" + message;
      assert (head + (IdentifierSuffix(identifier) + TerminatorFor(cfg, message)))[..|head|] == head;
      head + (IdentifierSuffix(identifier) + TerminatorFor(cfg, message))
  }

  /** The terminator `sendMessage` adds (lines 247-248): none when the
      message already ends with one, and never a NUL terminator. */
  function TerminatorFor(cfg: Config, message: string): string {
    if EndsWithTerminator(cfg, message) then [] else [cfg.terminator]
  }

  /** `sendError`: a message of type `ERR`, printed whatever the debug flag. */
  function ErrorText(cfg: Config, message: string, identifier: string): (r: string)
    ensures r == "" <==> message == ""
    ensures r != "" ==> |r| > 4 && r[..4] == "ERR:"
  {
    var r := MessageText(cfg, false, "ERR", message, identifier);
    assert r != "" ==> r[..4] == r[..4 + |message|][..4];
    r
  }

  /** `sendDebug`: a message of type `DEBUG`, printed only in debug mode. */
  function DebugText(cfg: Config, debug: bool, message: string, identifier: string): (r: string)
    ensures r == "" <==> message == "" || !debug
    ensures r != "" ==> |r| > 6 && r[..6] == "DEBUG:"
  {
    var r := MessageText(cfg, debug, "DEBUG", message, identifier);
    assert r != "" ==> r[..6] == r[..6 + |message|][..6];
    r
  }

  lemma {:induction false} JoinParamsFree(cfg: Config, kvs: seq<KeyValue>)
    requires forall i :: 0 <= i < |kvs| ==> cfg.terminator !in kvs[i].key && cfg.terminator !in kvs[i].value
    requires cfg.terminator != cfg.paramSeparator && cfg.terminator != cfg.commandSeparator
    ensures cfg.terminator !in JoinParams(cfg, kvs)
    decreases |kvs|
  {
    if |kvs| > 1 {
      JoinParamsFree(cfg, kvs[1..]);
    }
  }

  /** One more parameter at the end: a command separator, then the
      parameter. */
  lemma {:induction false} JoinParamsSnoc(cfg: Config, kvs: seq<KeyValue>, kv: KeyValue)
    requires kvs != []
    ensures JoinParams(cfg, kvs + [kv]) == JoinParams(cfg, kvs) + [cfg.commandSeparator] + ParamText(cfg, kv)
    decreases |kvs|
  {
    var all := kvs + [kv];
    assert all[1..] == kvs[1..] + [kv];
    if |kvs| > 1 {
      JoinParamsSnoc(cfg, kvs[1..], kv);
    } else {
      assert all[1..] == [kv];
    }
  }

  /** The parameters printed so far, one more: the separator that ends
      the previous one (if any), then the next parameter. */
  lemma ParamsPrefixGrows(cfg: Config, kvs: seq<KeyValue>, i: nat)
    requires i < |kvs|
    ensures JoinParams(cfg, kvs[..i + 1])
         == JoinParams(cfg, kvs[..i]) + (if 0 < i then [cfg.commandSeparator] else []) + ParamText(cfg, kvs[i])
  {
    assert kvs[..i + 1] == kvs[..i] + [kvs[i]];
    if i > 0 {
      JoinParamsSnoc(cfg, kvs[..i], kvs[i]);
    } else {
      assert kvs[..1] == [kvs[0]];
    }
  }

  /** `sendCommand` prints nothing without a header; otherwise it starts
      with the header and a command separator and, when no argument and no
      configured separator contains the terminator, ends with exactly one
      terminator. */
  lemma CommandTextFrame(cfg: Config, header: string, message: string, identifier: string,
                         params: Option<seq<KeyValue>>, argLength: int)
    requires params.Some? ==> ClampArgs(params, argLength) <= |params.value|
    requires cfg.terminator != cfg.paramSeparator && cfg.terminator != cfg.commandSeparator
    requires cfg.terminator !in header && cfg.terminator !in message && cfg.terminator !in identifier
    requires cfg.terminator !in ": ()"
    requires params.Some? ==> forall i :: 0 <= i < |params.value| ==>
               cfg.terminator !in params.value[i].key && cfg.terminator !in params.value[i].value
    ensures var out := CommandText(cfg, header, message, identifier, params, argLength);
            (header == "" <==> out == "") &&
            (header != "" ==>
               out[..|header| + 1] == header + [cfg.commandSeparator] &&
               out[|out| - 1] == cfg.terminator &&
               cfg.terminator !in out[..|out| - 1])
  {
    var out := CommandText(cfg, header, message, identifier, params, argLength);
    if header != "" {
      var n := ClampArgs(params, argLength);
      var args := if n == 0 then [] else params.value[..n];
      JoinParamsFree(cfg, args);
      var body := header + [cfg.commandSeparator]
        + (if message != "" then message + (if n > 0 then [cfg.commandSeparator] else []) else [])
        + JoinParams(cfg, args)
        + IdentifierSuffix(identifier);
      assert out == body + [cfg.terminator];
      assert out[..|out| - 1] == body;
      assert cfg.terminator !in IdentifierSuffix(identifier);
    }
  }

  /** A typical command line:
      `LED:Update:pin=12:state=ON: (Ctl1)` and a line feed. */
  lemma CommandTextExample()
    ensures CommandText(Config('\n', ':', '=', 1000, 64, false), "LED", "Update", "Ctl1",
                        Some([KeyValue("pin", "12"), KeyValue("state", "ON")]), 2)
              == "LED:Update:pin=12:state=ON: (Ctl1)\n"
  {
    var cfg := Config('\n', ':', '=', 1000, 64, false);
    var kvs := [KeyValue("pin", "12"), KeyValue("state", "ON")];
    ExampleParams();
    assert ClampArgs(Some(kvs), 2) == 2 && kvs[..2] == kvs;
    assert CommandText(cfg, "LED", "Update", "Ctl1", Some(kvs), 2)
        == "LED" + ":" + ("Update" + ":") + "pin=12:state=ON" + ": (Ctl1)" + "\n";
    ExampleLine();
  }

  /** The parameters of the example, as the loop prints them. */
  lemma ExampleParams()
    ensures JoinParams(Config('\n', ':', '=', 1000, 64, false), [KeyValue("pin", "12"), KeyValue("state", "ON")])
         == "pin=12:state=ON"
  {
    var kvs := [KeyValue("pin", "12"), KeyValue("state", "ON")];
    assert kvs[1..] == [KeyValue("state", "ON")];
    assert "pin" + "=" + "12" == "pin=12";
    assert "state" + "=" + "ON" == "state=ON";
    assert "pin=12" + ":" + "state=ON" == "pin=12:state=ON";
  }

  lemma ExampleLine()
    ensures "LED" + ":" + ("Update" + ":") + "pin=12:state=ON" + ": (Ctl1)" + "\n"
         == "LED:Update:pin=12:state=ON: (Ctl1)\n"
  {
    assert "LED" + ":" + ("Update" + ":") == "LED:Update:";
    assert "LED:Update:" + "pin=12:state=ON" == "LED:Update:pin=12:state=ON";
  }

  /** `sendMessage` prints nothing for an empty message or a suppressed
      debug message; otherwise the line starts with the type, a literal
      `:` and the message, followed by the identifier suffix, and ends in
      the terminator unless the message already ends with it. A NUL
      terminator counts as already present, so it is never printed. */
  lemma MessageTextShape(cfg: Config, debug: bool, messageType: string, message: string, identifier: string)
    ensures var out := MessageText(cfg, debug, messageType, message, identifier);
            var sent := message != "" && (messageType != "DEBUG" || debug);
            (!sent <==> out == "") &&
            (sent ==> out[..|messageType| + 1 + |message|] == messageType + ":" + message) &&
            (sent && cfg.terminator != '\0' && !EndsWith(message, cfg.terminator) ==>
               out[|out| - 1] == cfg.terminator &&
               |out| == |messageType| + |message| + |IdentifierSuffix(identifier)| + 2) &&
            (sent && (cfg.terminator == '\0' || EndsWith(message, cfg.terminator)) ==>
               |out| == |messageType| + |message| + |IdentifierSuffix(identifier)| + 1)
  {
    var out := MessageText(cfg, debug, messageType, message, identifier);
    if message != "" && (messageType != "DEBUG" || debug) {
      var head := messageType + ":" + message;
      assert out == head + (IdentifierSuffix(identifier) + TerminatorFor(cfg, message));
      assert out[..|head|] == head;
    }
  }

  /** A line with no identifier whose type and message are free of the
      terminator (and whose terminator is neither NUL nor `:`) holds the
      terminator exactly once, as its last character: the receiving side
      reads it back as one message. */
  lemma MessageTextFramed(cfg: Config, debug: bool, messageType: string, message: string)
    requires message != "" && (messageType != "DEBUG" || debug)
    requires cfg.terminator != '\0' && cfg.terminator != ':'
    requires cfg.terminator !in messageType && cfg.terminator !in message
    ensures var out := MessageText(cfg, debug, messageType, message, "");
            out != [] && out[|out| - 1] == cfg.terminator && cfg.terminator !in out[..|out| - 1]
  {
    var out := MessageText(cfg, debug, messageType, message, "");
    var head := messageType + ":" + message;
    assert message[|message| - 1] in message;
    assert out == head + [cfg.terminator];
    assert out[..|out| - 1] == head;
    assert cfg.terminator !in head by {
      forall k | 0 <= k < |head| ensures head[k] != cfg.terminator {
        if k < |messageType| { assert head[k] == messageType[k]; }
        else if k > |messageType| { assert head[k] == message[k - |messageType| - 1]; }
      }
    }
  }

  /** A message that already ends with the terminator and carries an
      identifier: the identifier suffix is printed after that terminator
      and the output does not end with one. This is what `processMessage`
      prints for its debug echo of the raw message. */
  lemma SuffixAfterTerminator(cfg: Config, debug: bool, messageType: string, message: string, identifier: string)
    requires message != [] && EndsWith(message, cfg.terminator)
    requires (messageType != "DEBUG" || debug) && identifier != "" && cfg.terminator !in identifier
    requires cfg.terminator != ')'
    ensures var out := MessageText(cfg, debug, messageType, message, identifier);
            out == messageType + ":" + message + ": (" + identifier + ")" &&
            out[|messageType| + |message|] == cfg.terminator &&
            !EndsWith(out, cfg.terminator)
  {
    var out := MessageText(cfg, debug, messageType, message, identifier);
    assert out == messageType + ":" + message + ": (" + identifier + ")";
    assert out[|messageType| + |message|] == message[|message| - 1];
  }
}
