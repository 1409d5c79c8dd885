/** What the parser makes of the lines the serialiser prints: feeding the
    output of `sendCommand` to an idle parser completes exactly one message
    whose command is the header and whose parameters are the ones sent. */
module RoundTrip {
  import opened Text
  import opened Wire
  import opened Parser

  /** The three configured characters are different from each other, as in
      the library's documented configuration (`\n`, `:`, `=`). */
  predicate DistinctSeparators(cfg: Config) {
    cfg.terminator != cfg.commandSeparator && cfg.terminator != cfg.paramSeparator &&
    cfg.commandSeparator != cfg.paramSeparator
  }

  predicate PlainParams(cfg: Config, kvs: seq<KeyValue>) {
    forall i :: 0 <= i < |kvs| ==> Plain(cfg, kvs[i].key) && Plain(cfg, kvs[i].value)
  }

  /** Each parameter preceded by a command separator. */
  function SepParams(cfg: Config, kvs: seq<KeyValue>): string
    decreases |kvs|
  {
    if kvs == [] then [] else [cfg.commandSeparator] + ParamText(cfg, kvs[0]) + SepParams(cfg, kvs[1..])
  }

  lemma {:induction false} JoinParamsSeparated(cfg: Config, kvs: seq<KeyValue>)
    requires kvs != []
    ensures [cfg.commandSeparator] + JoinParams(cfg, kvs) == SepParams(cfg, kvs)
    decreases |kvs|
  {
    if |kvs| > 1 {
      JoinParamsSeparated(cfg, kvs[1..]);
    } else {
      assert kvs[1..] == [];
    }
  }

  /** A byte that continues the message without output leaves the rest
      of the call to the following bytes. */
  lemma RunContinues(cfg: Config, q: Parser, input: string, now: nat)
    requires WellFormed(q) && input != [] && StepSpec(cfg, q, input[0], now).outcome == Continue
    ensures Run(cfg, q, input, now) == Run(cfg, StepSpec(cfg, q, input[0], now).parser, input[1..], now)
  {
  }

  /** A content byte in command mode is appended to the command buffer. */
  lemma StepCommandByte(cfg: Config, q: Parser, c: char, now: nat)
    requires WellFormed(q) && q.reading && q.parsingCommand && q.lastCharTime == now
    requires !IsSpecial(cfg, c) && |q.incoming| < cfg.maximumMessageSize
    ensures StepSpec(cfg, q, c, now) == StepResult(q.(incoming := q.incoming + [c], raw := q.raw + [c]), "", [], Continue)
  {
  }

  /** Content bytes in command mode go to the command buffer. */
  lemma {:induction false} RunCommandText(cfg: Config, q: Parser, x: string, t: string, now: nat)
    requires WellFormed(q) && q.reading && q.parsingCommand && q.lastCharTime == now
    requires Plain(cfg, x) && |q.incoming| + |x| <= cfg.maximumMessageSize
    ensures Run(cfg, q, x + t, now) == Run(cfg, q.(incoming := q.incoming + x, raw := q.raw + x), t, now)
    decreases |x|
  {
    if x == [] {
      assert q.(incoming := q.incoming + x, raw := q.raw + x) == q;
      assert x + t == t;
    } else {
      var c := x[0];
      var q1 := q.(incoming := q.incoming + [c], raw := q.raw + [c]);
      assert x + t == [c] + (x[1..] + t);
      RunCommandByte(cfg, q, c, x[1..] + t, now);
      RunCommandText(cfg, q1, x[1..], t, now);
      assert [c] + x[1..] == x;
      AppendAssoc(q.incoming, [c], x[1..]);
      AppendAssoc(q.raw, [c], x[1..]);
    }
  }

  /** One content byte in command mode, then the rest of the input. */
  lemma RunCommandByte(cfg: Config, q: Parser, c: char, rest: string, now: nat)
    requires WellFormed(q) && q.reading && q.parsingCommand && q.lastCharTime == now
    requires !IsSpecial(cfg, c) && |q.incoming| < cfg.maximumMessageSize
    ensures Run(cfg, q, [c] + rest, now) == Run(cfg, q.(incoming := q.incoming + [c], raw := q.raw + [c]), rest, now)
  {
    StepCommandByte(cfg, q, c, now);
    RunContinues(cfg, q, [c] + rest, now);
    assert ([c] + rest)[1..] == rest;
  }

  /** The last open slot's key or value, whichever is being read, with `x`
      appended. */
  function AppendField(q: Parser, x: string): Parser
    requires WellFormed(q) && q.paramCount >= 1
  {
    var i := q.paramCount - 1;
    var kv := q.params[i];
    q.(raw := q.raw + x,
       params := q.params[i := if q.parsingParamName then KeyValue(kv.key + x, kv.value)
                               else KeyValue(kv.key, kv.value + x)])
  }

  /** A content byte in parameter mode is appended to the last open slot. */
  lemma StepFieldByte(cfg: Config, q: Parser, c: char, now: nat)
    requires WellFormed(q) && q.reading && !q.parsingCommand && q.paramCount >= 1 && q.lastCharTime == now
    requires !IsSpecial(cfg, c) && |q.incoming| <= cfg.maximumMessageSize
    ensures StepSpec(cfg, q, c, now) == StepResult(AppendField(q, [c]), "", [], Continue)
  {
    var b := Begin(q, c, now);
    assert b == q.(raw := q.raw + [c]);
    assert Route(cfg, b, c) == AppendField(q, [c]);
  }

  /** Appending in two pieces is appending the whole. */
  lemma AppendFieldTwice(q: Parser, a: string, b: string)
    requires WellFormed(q) && q.paramCount >= 1
    ensures AppendField(AppendField(q, a), b) == AppendField(q, a + b)
  {
    var i := q.paramCount - 1;
    var kv := q.params[i];
    assert kv.key + a + b == kv.key + (a + b);
    assert kv.value + a + b == kv.value + (a + b);
    assert q.raw + a + b == q.raw + (a + b);
  }

  lemma AppendNothing(q: Parser)
    requires WellFormed(q) && q.paramCount >= 1
    ensures AppendField(q, []) == q
  {
    var i := q.paramCount - 1;
    var kv := q.params[i];
    assert kv.key + [] == kv.key && kv.value + [] == kv.value && q.raw + [] == q.raw;
    assert q.params[i := q.params[i]] == q.params;
  }

  /** Content bytes in parameter mode go to the last open slot. */
  lemma {:induction false} RunFieldText(cfg: Config, q: Parser, x: string, t: string, now: nat)
    requires WellFormed(q) && q.reading && !q.parsingCommand && q.paramCount >= 1 && q.lastCharTime == now
    requires Plain(cfg, x) && |q.incoming| <= cfg.maximumMessageSize
    ensures Run(cfg, q, x + t, now) == Run(cfg, AppendField(q, x), t, now)
    decreases |x|
  {
    if x == [] {
      AppendNothing(q);
      assert x + t == t;
    } else {
      var c := x[0];
      var q1 := AppendField(q, [c]);
      assert x + t == [c] + (x[1..] + t);
      RunFieldByte(cfg, q, c, x[1..] + t, now);
      RunFieldText(cfg, q1, x[1..], t, now);
      AppendFieldTwice(q, [c], x[1..]);
      assert [c] + x[1..] == x;
    }
  }

  /** One content byte in parameter mode, then the rest of the input. */
  lemma RunFieldByte(cfg: Config, q: Parser, c: char, rest: string, now: nat)
    requires WellFormed(q) && q.reading && !q.parsingCommand && q.paramCount >= 1 && q.lastCharTime == now
    requires !IsSpecial(cfg, c) && |q.incoming| <= cfg.maximumMessageSize
    ensures Run(cfg, q, [c] + rest, now) == Run(cfg, AppendField(q, [c]), rest, now)
  {
    StepFieldByte(cfg, q, c, now);
    RunContinues(cfg, q, [c] + rest, now);
    assert ([c] + rest)[1..] == rest;
  }

  /** A command separator below the slot bound opens an empty slot. */
  lemma RunSeparator(cfg: Config, q: Parser, t: string, now: nat)
    requires DistinctSeparators(cfg)
    requires WellFormed(q) && q.reading && q.paramCount < MaximumParameterCount && q.lastCharTime == now
    requires |q.incoming| <= cfg.maximumMessageSize
    ensures Run(cfg, q, [cfg.commandSeparator] + t, now)
         == Run(cfg, q.(paramCount := q.paramCount + 1, params := q.params[q.paramCount := EmptyKeyValue],
                        parsingCommand := false, parsingParamName := true,
                        raw := q.raw + [cfg.commandSeparator]), t, now)
  {
    var c := cfg.commandSeparator;
    var input := [c] + t;
    assert input[0] == c && input[1..] == t;
    var b := Begin(q, c, now);
    assert b == q.(raw := q.raw + [c]);
    var q1 := q.(paramCount := q.paramCount + 1, params := q.params[q.paramCount := EmptyKeyValue],
                 parsingCommand := false, parsingParamName := true, raw := q.raw + [c]);
    assert Route(cfg, b, c) == q1;
    assert StepSpec(cfg, q, c, now) == StepResult(q1, "", [], Continue);
    RunContinues(cfg, q, input, now);
  }

  /** A parameter separator switches from key to value. */
  lemma RunParamSeparator(cfg: Config, q: Parser, t: string, now: nat)
    requires DistinctSeparators(cfg)
    requires WellFormed(q) && q.reading && q.lastCharTime == now
    requires |q.incoming| <= cfg.maximumMessageSize
    ensures Run(cfg, q, [cfg.paramSeparator] + t, now)
         == Run(cfg, q.(parsingParamName := false, raw := q.raw + [cfg.paramSeparator]), t, now)
  {
    var c := cfg.paramSeparator;
    var input := [c] + t;
    assert input[0] == c && input[1..] == t;
    var b := Begin(q, c, now);
    assert b == q.(raw := q.raw + [c]);
    var q1 := q.(parsingParamName := false, raw := q.raw + [c]);
    assert Route(cfg, b, c) == q1;
    assert StepSpec(cfg, q, c, now) == StepResult(q1, "", [], Continue);
    RunContinues(cfg, q, input, now);
  }

  /** `key=value` read into a freshly opened slot fills it with that pair. */
  lemma RunParam(cfg: Config, q: Parser, kv: KeyValue, t: string, now: nat)
    requires DistinctSeparators(cfg)
    requires WellFormed(q) && q.reading && !q.parsingCommand && q.parsingParamName && q.lastCharTime == now
    requires q.paramCount >= 1 && q.params[q.paramCount - 1] == EmptyKeyValue
    requires |q.incoming| <= cfg.maximumMessageSize
    requires Plain(cfg, kv.key) && Plain(cfg, kv.value)
    ensures Run(cfg, q, ParamText(cfg, kv) + t, now)
         == Run(cfg, q.(params := q.params[q.paramCount - 1 := kv], parsingParamName := false,
                        raw := q.raw + ParamText(cfg, kv)), t, now)
  {
    var i := q.paramCount - 1;
    var afterKey := [cfg.paramSeparator] + (kv.value + t);
    var afterSep := kv.value + t;
    assert ParamText(cfg, kv) + t == kv.key + afterKey;
    var q1 := AppendField(q, kv.key);
    var q2 := q1.(parsingParamName := false, raw := q1.raw + [cfg.paramSeparator]);
    var q3 := AppendField(q2, kv.value);
    var goal := q.(params := q.params[i := kv], parsingParamName := false, raw := q.raw + ParamText(cfg, kv));
    calc {
      Run(cfg, q, ParamText(cfg, kv) + t, now);
      Run(cfg, q, kv.key + afterKey, now);
      { RunFieldText(cfg, q, kv.key, afterKey, now); }
      Run(cfg, q1, afterKey, now);
      { RunParamSeparator(cfg, q1, afterSep, now); }
      Run(cfg, q2, afterSep, now);
      { RunFieldText(cfg, q2, kv.value, t, now); }
      Run(cfg, q3, t, now);
      { ParamFilled(cfg, q, kv); }
      Run(cfg, goal, t, now);
    }
  }

  /** Key, separator and value appended to an empty slot fill it with the
      pair. */
  lemma ParamFilled(cfg: Config, q: Parser, kv: KeyValue)
    requires WellFormed(q) && q.parsingParamName
    requires q.paramCount >= 1 && q.params[q.paramCount - 1] == EmptyKeyValue
    ensures var q1 := AppendField(q, kv.key);
            var q2 := q1.(parsingParamName := false, raw := q1.raw + [cfg.paramSeparator]);
            AppendField(q2, kv.value)
            == q.(params := q.params[q.paramCount - 1 := kv], parsingParamName := false,
                  raw := q.raw + ParamText(cfg, kv))
  {
    var i := q.paramCount - 1;
    var q1 := AppendField(q, kv.key);
    var q2 := q1.(parsingParamName := false, raw := q1.raw + [cfg.paramSeparator]);
    var q3 := AppendField(q2, kv.value);
    assert q1.params[i] == KeyValue(kv.key, "");
    assert q3.params[i] == kv;
    assert q3.params == q.params[i := kv];
    assert q3.raw == q.raw + ParamText(cfg, kv);
  }

  /** The state after one separator and one `key=value` pair. */
  function WithParam(cfg: Config, q: Parser, kv: KeyValue): (r: Parser)
    requires WellFormed(q) && q.paramCount < MaximumParameterCount
    ensures WellFormed(r) && Args(r) == Args(q) + [kv]
    ensures r.paramCount == q.paramCount + 1
    ensures r.reading == q.reading && r.lastCharTime == q.lastCharTime && r.incoming == q.incoming
    ensures !r.parsingCommand && r.raw == q.raw + [cfg.commandSeparator] + ParamText(cfg, kv)
  {
    var r := q.(paramCount := q.paramCount + 1, params := q.params[q.paramCount := kv],
                parsingCommand := false, parsingParamName := false,
                raw := q.raw + [cfg.commandSeparator] + ParamText(cfg, kv));
    assert r.params[..r.paramCount] == q.params[..q.paramCount] + [kv];
    r
  }

  /** A separator followed by `key=value` adds that pair as a parameter. */
  lemma RunOneParam(cfg: Config, q: Parser, kv: KeyValue, t: string, now: nat)
    requires DistinctSeparators(cfg) && Plain(cfg, kv.key) && Plain(cfg, kv.value)
    requires WellFormed(q) && q.reading && q.lastCharTime == now && q.paramCount < MaximumParameterCount
    requires |q.incoming| <= cfg.maximumMessageSize
    ensures Run(cfg, q, [cfg.commandSeparator] + ParamText(cfg, kv) + t, now) == Run(cfg, WithParam(cfg, q, kv), t, now)
  {
    var q1 := q.(paramCount := q.paramCount + 1, params := q.params[q.paramCount := EmptyKeyValue],
                 parsingCommand := false, parsingParamName := true,
                 raw := q.raw + [cfg.commandSeparator]);
    var q2 := q1.(params := q1.params[q1.paramCount - 1 := kv], parsingParamName := false,
                  raw := q1.raw + ParamText(cfg, kv));
    assert q2 == WithParam(cfg, q, kv);
    calc {
      Run(cfg, q, [cfg.commandSeparator] + ParamText(cfg, kv) + t, now);
      { assert [cfg.commandSeparator] + ParamText(cfg, kv) + t == [cfg.commandSeparator] + (ParamText(cfg, kv) + t); }
      Run(cfg, q, [cfg.commandSeparator] + (ParamText(cfg, kv) + t), now);
      { RunSeparator(cfg, q, ParamText(cfg, kv) + t, now); }
      Run(cfg, q1, ParamText(cfg, kv) + t, now);
      { RunParam(cfg, q1, kv, t, now); }
      Run(cfg, q2, t, now);
    }
  }

  /** The state after reading each of `kvs`, separator first. */
  function AfterParams(cfg: Config, q: Parser, kvs: seq<KeyValue>): (r: Parser)
    requires WellFormed(q) && q.paramCount + |kvs| <= MaximumParameterCount
    ensures WellFormed(r) && r.paramCount == q.paramCount + |kvs|
    ensures r.reading == q.reading && r.lastCharTime == q.lastCharTime && r.incoming == q.incoming
    ensures r.parsingCommand == (q.parsingCommand && kvs == [])
    decreases |kvs|
  {
    if kvs == [] then q else AfterParams(cfg, WithParam(cfg, q, kvs[0]), kvs[1..])
  }

  /** Reading separated parameters appends them, in order, to the
      parameters and to the raw message. */
  lemma {:induction false} AfterParamsAppends(cfg: Config, q: Parser, kvs: seq<KeyValue>)
    requires WellFormed(q) && q.paramCount + |kvs| <= MaximumParameterCount
    ensures Args(AfterParams(cfg, q, kvs)) == Args(q) + kvs
    ensures AfterParams(cfg, q, kvs).raw == q.raw + SepParams(cfg, kvs)
    decreases |kvs|
  {
    if kvs == [] {
      assert q.raw + [] == q.raw && Args(q) + [] == Args(q);
    } else {
      var kv := kvs[0];
      var q2 := WithParam(cfg, q, kv);
      AfterParamsAppends(cfg, q2, kvs[1..]);
      assert [kv] + kvs[1..] == kvs;
      assert Args(q) + [kv] + kvs[1..] == Args(q) + kvs;
      assert q.raw + [cfg.commandSeparator] + ParamText(cfg, kv) + SepParams(cfg, kvs[1..])
          == q.raw + SepParams(cfg, kvs);
    }
  }

  /** A run of separated parameters fills one slot each, in order. */
  lemma {:induction false} RunParams(cfg: Config, q: Parser, kvs: seq<KeyValue>, t: string, now: nat)
    requires DistinctSeparators(cfg) && PlainParams(cfg, kvs)
    requires WellFormed(q) && q.reading && q.lastCharTime == now
    requires |q.incoming| <= cfg.maximumMessageSize
    requires q.paramCount + |kvs| <= MaximumParameterCount
    ensures Run(cfg, q, SepParams(cfg, kvs) + t, now) == Run(cfg, AfterParams(cfg, q, kvs), t, now)
    decreases |kvs|
  {
    if kvs == [] {
      assert SepParams(cfg, kvs) + t == t;
    } else {
      var kv := kvs[0];
      var head := [cfg.commandSeparator] + ParamText(cfg, kv);
      var restText := SepParams(cfg, kvs[1..]) + t;
      assert SepParams(cfg, kvs) + t == head + restText by {
        assert SepParams(cfg, kvs) == head + SepParams(cfg, kvs[1..]);
      }
      RunOneParam(cfg, q, kv, restText, now);
      assert PlainParams(cfg, kvs[1..]);
      RunParams(cfg, WithParam(cfg, q, kv), kvs[1..], t, now);
    }
  }

  /** The header, read from an idle parser, fills the command buffer. */
  lemma RunHeader(cfg: Config, p: Parser, header: string, t: string, now: nat) returns (q: Parser)
    requires WellFormed(p) && !p.reading
    requires header != [] && Plain(cfg, header) && |header| <= cfg.maximumMessageSize
    ensures WellFormed(q) && q.reading && q.parsingCommand && q.paramCount == 0 && q.lastCharTime == now
    ensures q.incoming == header && q.raw == header && q.debug == p.debug
    ensures Run(cfg, p, header + t, now) == Run(cfg, q, t, now)
  {
    var c := header[0];
    assert (header + t)[0] == c && (header + t)[1..] == header[1..] + t;
    var q1 := p.(reading := true, timedOut := false, parsingCommand := true, paramCount := 0,
                 incoming := [c], raw := [c], lastCharTime := now);
    StepFirstByte(cfg, p, c, now);
    RunContinues(cfg, p, header + t, now);
    RunCommandText(cfg, q1, header[1..], t, now);
    q := q1.(incoming := q1.incoming + header[1..], raw := q1.raw + header[1..]);
    assert [c] + header[1..] == header;
  }

  /** A plain byte read by an idle parser starts a message in command
      mode with that byte. */
  lemma StepFirstByte(cfg: Config, p: Parser, c: char, now: nat)
    requires WellFormed(p) && !p.reading && !IsSpecial(cfg, c) && 1 <= cfg.maximumMessageSize
    ensures StepSpec(cfg, p, c, now)
         == StepResult(p.(reading := true, timedOut := false, parsingCommand := true, paramCount := 0,
                          incoming := [c], raw := [c], lastCharTime := now), "", [], Continue)
  {
    var b := Begin(p, c, now);
    assert b == p.(reading := true, timedOut := false, parsingCommand := true, paramCount := 0,
                   incoming := [], raw := [c], lastCharTime := now);
    assert Route(cfg, b, c) == b.(incoming := [c]);
  }

  /** The terminator completes the message and ends the call. */
  lemma RunTerminator(cfg: Config, q: Parser, t: string, now: nat)
    requires WellFormed(q) && q.reading && Plain(cfg, q.incoming)
    ensures var r := Run(cfg, q, [cfg.terminator] + t, now);
            var command := CommandOf(cfg, q.incoming);
            var raw := q.raw + [cfg.terminator];
            r.rest == t && !r.parser.reading && r.parser.command == command &&
            Args(r.parser) == Args(q) && r.parser.raw == raw &&
            r.events == (if command != "DEBUG" && cfg.hasCallback then [Message(command, Args(q), raw)] else [])
  {
    var input := [cfg.terminator] + t;
    assert input[0] == cfg.terminator && input[1..] == t;
    var b := Begin(q, cfg.terminator, now);
    assert StepSpec(cfg, q, cfg.terminator, now) == Complete(cfg, b);
    CompleteDispatches(cfg, b);
  }

  /** The state after a separator and the text `x`: a new slot whose key
      is `x`. */
  function WithKey(cfg: Config, q: Parser, x: string): (r: Parser)
    requires WellFormed(q) && q.paramCount < MaximumParameterCount
    ensures WellFormed(r) && r.paramCount == q.paramCount + 1 && Args(r) == Args(q) + [KeyValue(x, "")]
    ensures r.reading == q.reading && r.lastCharTime == q.lastCharTime && r.incoming == q.incoming
    ensures !r.parsingCommand && r.raw == q.raw + [cfg.commandSeparator] + x
  {
    var r := q.(paramCount := q.paramCount + 1, params := q.params[q.paramCount := KeyValue(x, "")],
                parsingCommand := false, parsingParamName := true,
                raw := q.raw + [cfg.commandSeparator] + x);
    assert r.params[..r.paramCount] == q.params[..q.paramCount] + [KeyValue(x, "")];
    r
  }

  /** A separator followed by plain text opens a slot whose key is that
      text. */
  lemma RunKey(cfg: Config, q: Parser, x: string, t: string, now: nat)
    requires DistinctSeparators(cfg) && Plain(cfg, x)
    requires WellFormed(q) && q.reading && q.lastCharTime == now && q.paramCount < MaximumParameterCount
    requires |q.incoming| <= cfg.maximumMessageSize
    ensures Run(cfg, q, [cfg.commandSeparator] + x + t, now) == Run(cfg, WithKey(cfg, q, x), t, now)
  {
    var q1 := q.(paramCount := q.paramCount + 1, params := q.params[q.paramCount := EmptyKeyValue],
                 parsingCommand := false, parsingParamName := true,
                 raw := q.raw + [cfg.commandSeparator]);
    assert AppendField(q1, x) == WithKey(cfg, q, x) by {
      var i := q.paramCount;
      assert q1.params[i] == EmptyKeyValue && "" + x == x && "" + "" == "";
      assert q1.params[i := KeyValue(x, "")] == q.params[i := KeyValue(x, "")];
    }
    calc {
      Run(cfg, q, [cfg.commandSeparator] + x + t, now);
      { assert [cfg.commandSeparator] + x + t == [cfg.commandSeparator] + (x + t); }
      Run(cfg, q, [cfg.commandSeparator] + (x + t), now);
      { RunSeparator(cfg, q, x + t, now); }
      Run(cfg, q1, x + t, now);
      { RunFieldText(cfg, q1, x, t, now); }
      Run(cfg, AppendField(q1, x), t, now);
    }
  }

  /** What the parser reports for a line printed by `sendCommand` without
      identifier: a non-empty message becomes a first parameter with an
      empty value, followed by the parameters sent; since `sendCommand`
      always prints a separator after the header, a line with neither a
      message nor parameters still yields one empty parameter. */
  function ParsedArgs(message: string, args: seq<KeyValue>): seq<KeyValue> {
    var fields := (if message != "" then [KeyValue(message, "")] else []) + args;
    if fields == [] then [EmptyKeyValue] else fields
  }

  /** The parameters `sendCommand` prints. */
  function SentArgs(params: Option<seq<KeyValue>>, argLength: int): (args: seq<KeyValue>)
    requires params.Some? ==> ClampArgs(params, argLength) <= |params.value|
    ensures |args| == ClampArgs(params, argLength)
  {
    var n := ClampArgs(params, argLength);
    if n == 0 then [] else params.value[..n]
  }

  /** The text between the header and the terminator, each parameter
      preceded by its separator. */
  function BodyText(cfg: Config, message: string, args: seq<KeyValue>): string {
    if message == "" && args == [] then [cfg.commandSeparator]
    else if message == "" then SepParams(cfg, args)
    else [cfg.commandSeparator] + message + SepParams(cfg, args)
  }

  /** A line printed by `sendCommand` without identifier is the header,
      the body and the terminator. */
  lemma CommandTextSplits(cfg: Config, header: string, message: string,
                          params: Option<seq<KeyValue>>, argLength: int)
    requires header != []
    requires params.Some? ==> ClampArgs(params, argLength) <= |params.value|
    ensures CommandText(cfg, header, message, "", params, argLength)
         == header + BodyText(cfg, message, SentArgs(params, argLength)) + [cfg.terminator]
  {
    var args := SentArgs(params, argLength);
    var sep := cfg.commandSeparator;
    var joined := JoinParams(cfg, args);
    var mid := if message != "" then message + (if args != [] then [sep] else []) else [];
    assert CommandText(cfg, header, message, "", params, argLength)
        == header + [sep] + mid + joined + "" + [cfg.terminator];
    assert header + [sep] + mid + joined + "" == header + ([sep] + mid + joined);
    if args == [] {
      assert joined == [] && SepParams(cfg, args) == [];
      assert [sep] + mid + joined == BodyText(cfg, message, args);
    } else {
      JoinParamsSeparated(cfg, args);
      assert [sep] + mid + joined == BodyText(cfg, message, args);
    }
  }

  /** The state after the body. */
  function AfterBody(cfg: Config, q: Parser, message: string, args: seq<KeyValue>): (r: Parser)
    requires WellFormed(q) && q.paramCount == 0 && |ParsedArgs(message, args)| <= MaximumParameterCount
    ensures WellFormed(r)
  {
    if message == "" && args == [] then WithKey(cfg, q, "")
    else if message == "" then AfterParams(cfg, q, args)
    else AfterParams(cfg, WithKey(cfg, q, message), args)
  }

  /** The body fills the parameters with the message and the parameters
      sent and adds itself to the raw message. */
  lemma AfterBodyState(cfg: Config, q: Parser, message: string, args: seq<KeyValue>)
    requires WellFormed(q) && q.paramCount == 0 && |ParsedArgs(message, args)| <= MaximumParameterCount
    ensures var r := AfterBody(cfg, q, message, args);
            Args(r) == ParsedArgs(message, args) && r.raw == q.raw + BodyText(cfg, message, args) &&
            r.reading == q.reading && r.incoming == q.incoming
  {
    var r := AfterBody(cfg, q, message, args);
    assert Args(q) == [];
    if message == "" && args == [] {
      assert Args(r) == [KeyValue("", "")];
      assert r.raw == q.raw + BodyText(cfg, message, args) by {
        assert q.raw + [cfg.commandSeparator] + "" == q.raw + [cfg.commandSeparator];
      }
    } else if message == "" {
      AfterParamsAppends(cfg, q, args);
      assert Args(r) == ParsedArgs(message, args) by {
        assert Args(r) == [] + args;
      }
    } else {
      AfterBodyWithMessage(cfg, q, message, args);
    }
  }

  lemma AfterBodyWithMessage(cfg: Config, q: Parser, message: string, args: seq<KeyValue>)
    requires WellFormed(q) && q.paramCount == 0 && message != ""
    requires |ParsedArgs(message, args)| <= MaximumParameterCount
    ensures var r := AfterBody(cfg, q, message, args);
            Args(r) == ParsedArgs(message, args) && r.raw == q.raw + BodyText(cfg, message, args)
  {
    var k := WithKey(cfg, q, message);
    assert AfterBody(cfg, q, message, args) == AfterParams(cfg, k, args);
    AfterParamsAppends(cfg, k, args);
    ArgsWithMessage(cfg, q, message, args);
    RawWithMessage(cfg, q, message, args);
  }

  lemma ArgsWithMessage(cfg: Config, q: Parser, message: string, args: seq<KeyValue>)
    requires WellFormed(q) && q.paramCount == 0 && 1 + |args| <= MaximumParameterCount
    ensures var k := WithKey(cfg, q, message);
            Args(k) + args == [KeyValue(message, "")] + args
  {
    assert Args(q) == [];
  }

  lemma RawWithMessage(cfg: Config, q: Parser, message: string, args: seq<KeyValue>)
    requires WellFormed(q) && q.paramCount == 0 && message != ""
    ensures WithKey(cfg, q, message).raw + SepParams(cfg, args) == q.raw + BodyText(cfg, message, args)
  {
    var head := [cfg.commandSeparator] + message;
    var rest := SepParams(cfg, args);
    assert WithKey(cfg, q, message).raw == q.raw + head;
    assert BodyText(cfg, message, args) == head + rest;
    AppendAssoc(q.raw, head, rest);
  }

  /** Reading the body leads to `AfterBody`. */
  lemma RunBody(cfg: Config, q: Parser, message: string, args: seq<KeyValue>, t: string, now: nat)
    requires DistinctSeparators(cfg) && Plain(cfg, message) && PlainParams(cfg, args)
    requires WellFormed(q) && q.reading && q.lastCharTime == now && q.paramCount == 0
    requires |q.incoming| <= cfg.maximumMessageSize
    requires |ParsedArgs(message, args)| <= MaximumParameterCount
    ensures Run(cfg, q, BodyText(cfg, message, args) + t, now) == Run(cfg, AfterBody(cfg, q, message, args), t, now)
  {
    if message == "" && args == [] {
      RunEmptyBody(cfg, q, t, now);
    } else if message == "" {
      RunParamsBody(cfg, q, args, t, now);
    } else {
      RunMessageBody(cfg, q, message, args, t, now);
    }
  }

  /** A body with neither message nor parameters: a lone separator opens
      one empty slot. */
  lemma RunEmptyBody(cfg: Config, q: Parser, t: string, now: nat)
    requires DistinctSeparators(cfg)
    requires WellFormed(q) && q.reading && q.lastCharTime == now && q.paramCount == 0
    requires |q.incoming| <= cfg.maximumMessageSize
    ensures |ParsedArgs("", [])| <= MaximumParameterCount
    ensures Run(cfg, q, BodyText(cfg, "", []) + t, now) == Run(cfg, AfterBody(cfg, q, "", []), t, now)
  {
    var sep := cfg.commandSeparator;
    RunKey(cfg, q, "", t, now);
    assert [sep] + "" + t == BodyText(cfg, "", []) + t;
  }

  /** A body without message: the parameters, each after its separator. */
  lemma RunParamsBody(cfg: Config, q: Parser, args: seq<KeyValue>, t: string, now: nat)
    requires DistinctSeparators(cfg) && PlainParams(cfg, args) && args != []
    requires WellFormed(q) && q.reading && q.lastCharTime == now && q.paramCount == 0
    requires |q.incoming| <= cfg.maximumMessageSize
    requires |ParsedArgs("", args)| <= MaximumParameterCount
    ensures Run(cfg, q, BodyText(cfg, "", args) + t, now) == Run(cfg, AfterBody(cfg, q, "", args), t, now)
  {
    assert ParsedArgs("", args) == args;
    RunParams(cfg, q, args, t, now);
  }

  /** A body that starts with a message: the message opens the first slot
      as its key, and the parameters follow. */
  lemma RunMessageBody(cfg: Config, q: Parser, message: string, args: seq<KeyValue>, t: string, now: nat)
    requires DistinctSeparators(cfg) && Plain(cfg, message) && PlainParams(cfg, args) && message != ""
    requires WellFormed(q) && q.reading && q.lastCharTime == now && q.paramCount == 0
    requires |q.incoming| <= cfg.maximumMessageSize
    requires |ParsedArgs(message, args)| <= MaximumParameterCount
    ensures Run(cfg, q, BodyText(cfg, message, args) + t, now) == Run(cfg, AfterBody(cfg, q, message, args), t, now)
  {
    var sep := cfg.commandSeparator;
    var k := WithKey(cfg, q, message);
    assert BodyText(cfg, message, args) + t == [sep] + message + (SepParams(cfg, args) + t);
    RunKey(cfg, q, message, SepParams(cfg, args) + t, now);
    RunParams(cfg, k, args, t, now);
  }

  /** Round trip: an idle parser fed the line that `sendCommand` prints
      (no identifier, no special characters inside the fields, a header
      within the size limit, at most MaximumParameterCount fields)
      consumes exactly that line, completes one message whose command is
      what completion takes from the header (the trimmed header for any
      terminator but NUL) and whose parameters are the message and the
      parameters sent, keeps the line as the raw message, and hands it to
      the fallback unless that command is `DEBUG`. */
  lemma CommandTextRoundTrip(cfg: Config, p: Parser, header: string, message: string,
                             params: Option<seq<KeyValue>>, argLength: int, t: string, now: nat)
    requires DistinctSeparators(cfg)
    requires WellFormed(p) && !p.reading
    requires header != [] && Plain(cfg, header) && |header| <= cfg.maximumMessageSize
    requires Plain(cfg, message)
    requires params.Some? ==> ClampArgs(params, argLength) <= |params.value|
    requires PlainParams(cfg, SentArgs(params, argLength))
    requires |ParsedArgs(message, SentArgs(params, argLength))| <= MaximumParameterCount
    ensures var wire := CommandText(cfg, header, message, "", params, argLength);
            var args := ParsedArgs(message, SentArgs(params, argLength));
            var r := Run(cfg, p, wire + t, now);
            r.rest == t && !r.parser.reading &&
            r.parser.command == CommandOf(cfg, header) && Args(r.parser) == args && r.parser.raw == wire &&
            r.events == (if CommandOf(cfg, header) != "DEBUG" && cfg.hasCallback
                         then [Message(CommandOf(cfg, header), args, wire)] else [])
  {
    var qEnd := RunUpToTerminator(cfg, p, header, message, params, argLength, t, now);
    RunTerminator(cfg, qEnd, t, now);
  }

  /** Everything of the line but its terminator: the state then reads the
      header as its command buffer and holds the parameters sent. */
  lemma RunUpToTerminator(cfg: Config, p: Parser, header: string, message: string,
                          params: Option<seq<KeyValue>>, argLength: int, t: string, now: nat)
    returns (qEnd: Parser)
    requires DistinctSeparators(cfg)
    requires WellFormed(p) && !p.reading
    requires header != [] && Plain(cfg, header) && |header| <= cfg.maximumMessageSize
    requires Plain(cfg, message)
    requires params.Some? ==> ClampArgs(params, argLength) <= |params.value|
    requires PlainParams(cfg, SentArgs(params, argLength))
    requires |ParsedArgs(message, SentArgs(params, argLength))| <= MaximumParameterCount
    ensures WellFormed(qEnd) && qEnd.reading && qEnd.incoming == header
    ensures Args(qEnd) == ParsedArgs(message, SentArgs(params, argLength))
    ensures qEnd.raw + [cfg.terminator] == CommandText(cfg, header, message, "", params, argLength)
    ensures Run(cfg, p, CommandText(cfg, header, message, "", params, argLength) + t, now)
         == Run(cfg, qEnd, [cfg.terminator] + t, now)
  {
    var args := SentArgs(params, argLength);
    var body := BodyText(cfg, message, args);
    var last := [cfg.terminator] + t;
    var wire := CommandText(cfg, header, message, "", params, argLength);
    CommandTextSplits(cfg, header, message, params, argLength);
    assert wire + t == header + (body + last);
    var q := RunHeader(cfg, p, header, body + last, now);
    qEnd := AfterBody(cfg, q, message, args);
    RunBody(cfg, q, message, args, last, now);
    AfterBodyState(cfg, q, message, args);
  }
}
