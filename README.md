# SerialCommandManager in Dafny

This project models the core of the Arduino library SerialCommandManager.
The core has two parts.

- `SerialCommandManager` is a line-oriented command parser for a serial port.
  - `readCommands` reads the available bytes one at a time. It splits a line such as
    `LED:pin=12:state=ON` plus the terminator into a command and at most five key/value
    parameters.
  - It aborts a line whose command buffer grows beyond the configured maximum. It also
    abandons a half-read line after a period of silence.
  - On the terminator it hands the message to `processMessage`. That handles the built-in
    `DEBUG` command; any other message goes to the fallback callback.
  - `sendCommand`, `sendMessage`, `sendError` and `sendDebug` print lines in the same format.
- `BaseCommandHandler` holds the helpers a command handler uses to build replies.
  - The five `makeParam` overloads build one parameter. They truncate C strings into
    fixed buffers, turn a null pointer into an empty field, and render integers in base 10.
  - `sendAckOk` and the two `sendAckErr` overloads format an `ACK:<command>=<result>`
    reply and send it through `sendCommand`.

The project has six modules.

- `Text`: the string helpers of the Arduino `String` class that the source relies on.
  These are `trim`, `toUpperCase`, `endsWith`, `indexOf`, truncation into a buffer,
  and `itoa`. Each comes with its characterisation.
- `Wire`: the parameter record, the configuration, and the serialisers as pure functions.
  Each serialiser gives the exact characters one call prints.
- `Parser`: the state machine of `readCommands` and `processMessage` as functions on a
  value holding every field they touch.
  - `StepSpec` is one byte; `Run` is one call of `readCommands`.
  - The lemmas state what the parser promises: routing, bounds, completion, overflow,
    timeout, and the `DEBUG` command.
- `RoundTrip`: what the parser makes of a line that `sendCommand` prints.
- `Manager`: the class `SerialCommandManager`, with the fields of the C++ class updated in
  place, including the fixed array of five parameter slots.
  - Each method is proved to move the fields exactly as the `Parser` and `Wire` functions say.
  - Printing appends to the field `output`.
  - Each invocation of the fallback callback appends a `Message` to the field `received`.
  - `readCommands` takes the bytes available and returns the bytes it left unread.
  - `millis()` is the parameter `now`.
- `CommandHandler`: `makeParam`, the ACK payloads, and the ACK helpers as methods that call
  `SendCommand` on a manager.

The manager tests for a terminator with `endsWith(String(_terminator))`. In Arduino,
`String('\0')` is the empty string, and every string ends with the empty string. The model
keeps this behaviour for a NUL terminator.
- `readCommands` then always removes the last character of the trimmed command buffer, so
  `PING` followed by NUL yields the command `PIN` (`Parser.NulTerminatorExample`).
- `sendMessage` never prints a NUL terminator. `sendCommand` prints it, because it prints the
  character itself.

## Model

| member | source | states |
|---|---|---|
| Manager.SerialCommandManager.constructor | src/SerialCommandManager.cpp:12-37 | The configuration is stored as given, nothing is being read, the debug mode is off, nothing has been printed and no callback has run. |
| Manager.SerialCommandManager.IsTimeout | src/SerialCommandManager.cpp:39-42 | `isTimeout` reports whether the last message was abandoned for silence. |
| Manager.SerialCommandManager.GetCommand | src/SerialCommandManager.cpp:44-47 | `getCommand` returns the command of the last completed message. |
| Manager.SerialCommandManager.GetArgs | src/SerialCommandManager.cpp:49-55 | Outside [0, count) the result is the empty pair; inside, it is that parameter slot unchanged. |
| Manager.SerialCommandManager.GetArgCount | src/SerialCommandManager.cpp:57-60 | The count is the number of parameters of the current message and lies in [0, 5]. |
| Manager.SerialCommandManager.GetRawMessage | src/SerialCommandManager.cpp:62-65 | The raw message holds every byte of the current message as received. |
| Parser.ArgAt | src/SerialCommandManager.cpp:49-55 | The same `getArgs` result, stated on a parser value for use in the lemmas. |
| Manager.SerialCommandManager.ReadCommands | src/SerialCommandManager.cpp:66-157 | One call moves the fields, the output and the callback log exactly as `Parser.Run` says. The bytes it returns are exactly the ones `Run` leaves unread. |
| Parser.RunConsumesPrefix | src/SerialCommandManager.cpp:66-157 | One call consumes only a prefix of the input and completes at most one message. It never consumes a terminator except as its last byte. Whenever bytes are left over, reading has stopped. |
| Manager.SerialCommandManager.Step | src/SerialCommandManager.cpp:71-146 | The loop body for one byte moves the fields, output and callback log exactly as `Parser.StepSpec` says, and reports how the body ends. |
| Parser.StepSpec | src/SerialCommandManager.cpp:71-146 | One byte completes a message exactly when it is the terminator; only completion invokes the callback, and at most once. A byte that continues the message prints nothing and keeps reading; any other outcome stops reading. |
| Manager.SerialCommandManager.BeginByte | src/SerialCommandManager.cpp:72-84 | Every byte stamps the arrival time and is added to the raw message, after a new message has been started if none was being read; the fields end exactly as `Parser.Begin` says. |
| Manager.SerialCommandManager.StartMessage | src/SerialCommandManager.cpp:74-82 | Starting a message sets reading, clears the timeout flag, enters command mode, and empties the raw message, the buffer and the parameter count; nothing else changes. |
| Manager.SerialCommandManager.AdvanceByte | src/SerialCommandManager.cpp:110-146 | A byte other than the terminator is routed, then an over-long buffer stops reading with one `Too Long` error; fields, output and outcome are exactly as `Parser.Advance` says. |
| Parser.Advance | src/SerialCommandManager.cpp:110-146 | A byte other than the terminator never completes a message or invokes the callback, and leaves the raw message, the arrival time and the timeout flag as they were. |
| Manager.SerialCommandManager.RouteByte | src/SerialCommandManager.cpp:110-139 | A byte other than the terminator updates the fields exactly as `Parser.Route` says, writing into the slot array in place. |
| Manager.SerialCommandManager.OpenSlot | src/SerialCommandManager.cpp:110-120 | A command separator opens the next slot as an empty pair while fewer than five are open, and switches to key mode outside command mode. |
| Manager.SerialCommandManager.AppendToSlot | src/SerialCommandManager.cpp:131-137 | A content byte outside command mode extends the key or the value of the last open slot in place, as `Parser.Route` says. |
| Parser.Route | src/SerialCommandManager.cpp:110-139 | Routing a byte keeps the slot array at five entries and the count at most five. It never touches the raw message, the arrival time, the timeout flag or the reading flag. |
| Manager.SerialCommandManager.CompleteMessage | src/SerialCommandManager.cpp:86-108 | The terminator's handling moves the fields, output and callback log exactly as `Parser.Complete` says. |
| Parser.Complete | src/SerialCommandManager.cpp:86-108 | Completion stops reading and invokes the callback at most once. The raw message, arrival time, timeout flag and parameters are kept. |
| Manager.SerialCommandManager.ExtractCommand | src/SerialCommandManager.cpp:88-104 | Reading stops. The buffer becomes its trimmed text, without its last character when `endsWith(String(terminator))` holds, which is always the case for a NUL terminator. The command is the trimmed text before the first command separator, exactly as `Parser.Extract` says. Nothing else changes. |
| Manager.SerialCommandManager.FinishBuffer | src/SerialCommandManager.cpp:91-95 | Trimming the buffer and removing its last character when `endsWith(String(terminator))` holds gives exactly `Parser.FinishedText`. |
| Manager.SerialCommandManager.CommandFrom | src/SerialCommandManager.cpp:97-104 | Cutting at the first command separator and trimming gives exactly `Parser.CommandToken`. |
| Parser.Extract | src/SerialCommandManager.cpp:88-104 | Command extraction changes only the reading flag, the command buffer and the command. |
| Manager.SerialCommandManager.CheckMessageTimeout | src/SerialCommandManager.cpp:149-156 | The final timeout check moves the fields and output exactly as `Parser.CheckTimeout` says. |
| Manager.SerialCommandManager.ProcessMessage | src/SerialCommandManager.cpp:202-225 | `processMessage` changes the fields and prints exactly as `Parser.Process` says, and returns whether it handled the message. It never invokes the callback. |
| Parser.Process | src/SerialCommandManager.cpp:202-225 | `processMessage` can change no field other than the debug flag. |
| Manager.SerialCommandManager.HandleDebug | src/SerialCommandManager.cpp:209-221 | With exactly one parameter, the debug mode becomes whether its token is `ON`; otherwise the mode is kept. Then the resulting `DEBUG` reply is printed. |
| Manager.SerialCommandManager.ReadDebugToken | src/SerialCommandManager.cpp:213-216 | The token is the parameter's value, or its key when the value is empty, trimmed and upper-cased. |
| Manager.SerialCommandManager.SendCommand | src/SerialCommandManager.cpp:159-200 | Appends exactly `Wire.CommandText` of its arguments to the output. The parser state and the callback log are unchanged. |
| Manager.SerialCommandManager.PrintHead | src/SerialCommandManager.cpp:174-183 | Prints the header and a command separator, then the message if there is one, followed by a command separator only when parameters follow. |
| Manager.SerialCommandManager.PrintParams | src/SerialCommandManager.cpp:186-194 | The `for` loop prints each parameter as key, parameter separator, value, with a command separator after every parameter but the last. |
| Manager.SerialCommandManager.PrintIdentifier | src/SerialCommandManager.cpp:196-197 | A non-empty identifier is printed as the literal `: (` identifier `)`. |
| Manager.SerialCommandManager.SendMessage | src/SerialCommandManager.cpp:232-249 | Appends exactly `Wire.MessageText` for the current debug mode. |
| Manager.SerialCommandManager.PrintLabelled | src/SerialCommandManager.cpp:240-242 | Prints the type, a colon and the message. |
| Manager.SerialCommandManager.PrintTerminator | src/SerialCommandManager.cpp:247-248 | Prints the terminator unless the message already ends with it. A NUL terminator is never printed. |
| Parser.ManagerErrorLine | src/SerialCommandManager.cpp:232-254 | An error the manager reports about itself is `ERR:`, the text and the suffix `: (SerialCommandManager)`. The terminator follows unless the text already ends with it or the terminator is NUL. |
| Wire.BareCommandText | src/SerialCommandManager.cpp:159-200 | A command with a message but no parameters and no identifier prints as the header, a separator, the message and the terminator. |
| Manager.SerialCommandManager.SendError | src/SerialCommandManager.cpp:251-254 | Appends an `ERR` message, whatever the debug mode. |
| Manager.SerialCommandManager.SendDebug | src/SerialCommandManager.cpp:227-230 | Appends a `DEBUG` message, which is empty unless debug mode is on. |
| Manager.SerialCommandManager.Print | src/SerialCommandManager.cpp:174-199 | Printing to the port appends the text to the output and changes nothing else. |
| Wire.ClampArgs | src/SerialCommandManager.cpp:164-172 | The count used lies in [0, 5]. It is 0 without an array or for a negative count, the given count when that lies in range, and 5 above the range. |
| Wire.CommandTextFrame | src/SerialCommandManager.cpp:159-200 | An empty header prints nothing. Otherwise the line starts with the header and a command separator and ends with exactly one terminator, none before it, provided no field contains the terminator. |
| Wire.CommandTextExample | src/SerialCommandManager.cpp:174-199 | `LED`, `Update`, `Ctl1` and the parameters `pin=12` and `state=ON` print as `LED:Update:pin=12:state=ON: (Ctl1)` and a line feed. |
| Wire.ParamsPrefixGrows | src/SerialCommandManager.cpp:186-194 | Each loop iteration extends the printed parameters by the previous separator (if any) and the next parameter. |
| Wire.JoinParamsSnoc | src/SerialCommandManager.cpp:186-194 | One more parameter adds a command separator and that parameter. |
| Wire.JoinParamsFree | src/SerialCommandManager.cpp:186-194 | Parameters free of the terminator print free of it. |
| Wire.MessageTextShape | src/SerialCommandManager.cpp:232-249 | Nothing is printed for an empty message or a suppressed debug message. Otherwise the output starts with `TYPE:message` and the identifier suffix. One terminator follows exactly when the terminator is not NUL and the message does not already end with it. |
| Wire.SuffixAfterTerminator | src/SerialCommandManager.cpp:244-248 | Take a message that is printed (any type but `DEBUG`, or `DEBUG` in debug mode), already ends with the terminator and has an identifier. The suffix is printed after that terminator, and the line does not end with a terminator. |
| Parser.RawEchoAfterTerminator | src/SerialCommandManager.cpp:204 | The debug echo of a raw message that ends with the terminator prints that terminator before the suffix `: (SerialComdMgr-RawMessage:)`, so the echo line does not end with a terminator. |
| Parser.InitialInvariant | src/SerialCommandManager.cpp:12-37 | The state after construction satisfies the parser invariant. |
| Parser.StepKeepsInvariant | src/SerialCommandManager.cpp:71-146 | Every byte keeps the invariant. The count stays at most 5. Separators and the terminator never enter the command buffer. While reading, the buffer is within the limit, and the parser is in command mode exactly when no slot is open. |
| Parser.CheckTimeoutKeepsInvariant | src/SerialCommandManager.cpp:149-156 | The timeout check keeps the invariant. |
| Parser.RunKeepsInvariant | src/SerialCommandManager.cpp:66-157 | A whole call of `readCommands` keeps the invariant. |
| Parser.PlainCommand | src/SerialCommandManager.cpp:91-104 | On a buffer free of special characters, finishing keeps it free of them. For any terminator but NUL, the strip and the separator split do nothing, so the command is the trimmed buffer. For NUL, the command is the trimmed buffer without its last character. |
| Parser.StepRecordsByte | src/SerialCommandManager.cpp:71-84 | Every byte stamps the arrival time and is appended to the raw message. A byte arriving while idle restarts the raw message with itself and clears the timeout flag. |
| Parser.StepStartsMessage | src/SerialCommandManager.cpp:74-82 | A byte arriving while idle starts from an empty command buffer and a parameter count of 0, before that byte is routed. |
| Parser.StepRoutesContent | src/SerialCommandManager.cpp:126-139 | In command mode a content byte goes to the command buffer. Otherwise it goes to the key, or after a parameter separator the value, of the last open slot; every other slot is kept. |
| Parser.StepOpensSlot | src/SerialCommandManager.cpp:111-121 | A command separator opens a fresh empty slot only below five open slots, and always switches to reading a key. |
| Parser.StepSwitchesToValue | src/SerialCommandManager.cpp:122-125 | A parameter separator only switches from key to value. |
| Parser.ExtraSeparatorExtendsLastKey | src/SerialCommandManager.cpp:111-139 | With all five slots open, a sixth separator opens nothing. The next content byte extends the key of slot 5. |
| Parser.StepOverflow | src/SerialCommandManager.cpp:141-146 | A byte overflows exactly when it is a command-mode content byte that takes the command buffer past the maximum; parameter bytes are not counted. The overflow prints one `Too Long` error, invokes no callback and stops reading. |
| Parser.TooLongLine | src/SerialCommandManager.cpp:143 | The overflow error is `ERR:Too Long: (SerialCommandManager)` plus the terminator. The terminator is left off when it is `g` or NUL. |
| Parser.TimeoutLine | src/SerialCommandManager.cpp:152 | The timeout error is `ERR:Timeout: (SerialCommandManager)` plus the terminator. The terminator is left off when it is `t` or NUL. |
| Parser.StepCompletes | src/SerialCommandManager.cpp:86-109 | The terminator stops reading and takes the command from the command buffer: for any terminator but NUL it is the trimmed command-mode content. The parameters are kept. The callback runs once exactly when the command is not `DEBUG` and a callback was given. |
| Parser.CompleteDispatches | src/SerialCommandManager.cpp:97-107 | Completion of a non-empty message takes the command from the finished buffer. It dispatches to the callback exactly for commands other than `DEBUG`. |
| Parser.DebugTokenIsOn | src/SerialCommandManager.cpp:213-217 | The `DEBUG` parameter switches debug on exactly when its trimmed token is `ON` in some letter case. |
| Parser.UpperIsOn | src/SerialCommandManager.cpp:216-217 | Upper-casing gives `ON` exactly for the four spellings of `on`. |
| Parser.DebugCommand | src/SerialCommandManager.cpp:209-222 | `DEBUG` with exactly one parameter sets the mode from that parameter and keeps it otherwise. The reply is `DEBUG`, a separator, `ON` or `OFF` and the terminator, after the raw-message echo, and the message counts as handled. |
| Parser.OtherCommand | src/SerialCommandManager.cpp:204-224 | Any other command leaves the state unchanged and prints only the debug echo. It is reported as unhandled, so the fallback runs. |
| Parser.RunWithoutInput | src/SerialCommandManager.cpp:149-156 | With no byte available, an idle parser is left as it was and nothing is printed. A message in progress is abandoned with one `Timeout` error and the flag set, exactly when more than the timeout has passed since its last byte. |
| Parser.RunFirstByte | src/SerialCommandManager.cpp:69-147 | An overflow or a completed message ends the call; any other byte leaves the rest to the following bytes. |
| Parser.RunStopsOnOverflow | src/SerialCommandManager.cpp:141-146 | An overflow ends the call: the rest of the input stays queued, the only output is the `Too Long` line, and no timeout check follows. |
| Parser.RunStopsAtTerminator | src/SerialCommandManager.cpp:86-109 | Bytes after the first terminator stay queued for the next call. |
| RoundTrip.CommandTextRoundTrip | src/SerialCommandManager.cpp:66-200 | Feed an idle parser a line printed by `sendCommand` with no identifier and plain fields, whose header is within the maximum message size and whose message and parameters together are at most five fields. It consumes exactly that line. The command is what completion takes from the header, which `PlainCommand` shows is the trimmed header for any terminator but NUL. The parameters are the message and the parameters sent, and the raw message is the line. The callback gets the message unless the command is `DEBUG`. |
| RoundTrip.RunUpToTerminator | src/SerialCommandManager.cpp:71-139 | For the same lines (header within the size limit, at most five fields), everything before the terminator leaves the parser reading, with the header as its command buffer, the message and the parameters sent as its parameters, and the line without its terminator as the raw message. |
| RoundTrip.RunParams | src/SerialCommandManager.cpp:111-139 | Reading separator-prefixed parameters appends them, in order, as new slots. |
| RoundTrip.RunBody | src/SerialCommandManager.cpp:111-139 | Reading the text between header and terminator fills the slots with the message and the parameters. |
| RoundTrip.AfterBodyState | src/SerialCommandManager.cpp:111-139 | After the body, the parameters are the message and the parameters sent, and the raw message has grown by the body. |
| RoundTrip.CommandTextSplits | src/SerialCommandManager.cpp:174-199 | A line without identifier is the header, the body and the terminator. |
| RoundTrip.JoinParamsSeparated | src/SerialCommandManager.cpp:186-194 | A separator followed by the joined parameters is each parameter preceded by its separator. |
| RoundTrip.RunCommandText | src/SerialCommandManager.cpp:128-131 | Plain bytes in command mode, within the size limit, are appended to the command buffer and to the raw message. |
| RoundTrip.RunFieldText | src/SerialCommandManager.cpp:132-138 | Plain bytes after a separator are appended to the open field and to the raw message. |
| RoundTrip.RunHeader | src/SerialCommandManager.cpp:74-84 | An idle parser fed a plain header starts a message in command mode with the header as its buffer. |
| RoundTrip.RunTerminator | src/SerialCommandManager.cpp:86-109 | The terminator completes the message and leaves the following bytes unread. |
| CommandHandler.MakeByteParam | src/BaseCommandHandler.cpp:73-79 | Key and value are the canonical base-10 texts of the two bytes (no leading zero, so exactly what `itoa` prints, by `RendersExactly`) and fit their buffers. |
| CommandHandler.MakeByteKeyParam | src/BaseCommandHandler.cpp:81-91 | The key is the canonical base-10 text of the byte. The value is empty for a null pointer, the text itself when it fits 32 characters, and its first 32 characters otherwise. |
| CommandHandler.MakeNamedByteParam | src/BaseCommandHandler.cpp:93-103 | The key is empty for a null pointer, the text itself when it fits 10 characters, and its first 10 characters otherwise. The value is the canonical base-10 text of the byte. |
| CommandHandler.MakeNamedIntParam | src/BaseCommandHandler.cpp:105-116 | The key is copied as above. The value is the canonical base-10 text of the `int`, with a leading `-` exactly for negatives; even the most negative 32-bit value fits the value buffer. |
| CommandHandler.MakeNamedParam | src/BaseCommandHandler.cpp:118-135 | Key and value are copied and truncated independently, each empty when its pointer is null. |
| CommandHandler.CopyField | src/BaseCommandHandler.cpp:96-100 | A guarded `strncpy` with an explicit NUL yields the empty string for null, the source when it fits, and otherwise a prefix of exactly the capacity. |
| CommandHandler.CopiedIsUnique | src/BaseCommandHandler.cpp:96-100 | That description of a guarded copy determines the result uniquely. |
| CommandHandler.ByteRendering | src/BaseCommandHandler.cpp:76-77 | `itoa` of a byte is canonical digits that read back as the byte, at most three of them. |
| CommandHandler.IntRendering | src/BaseCommandHandler.cpp:114 | `itoa` of a 32-bit `int` is canonical, reads back as the number and has at most eleven characters. |
| CommandHandler.LongKeyExample | src/BaseCommandHandler.cpp:93-103 | The key `temperature` is stored as `temperatur`. |
| CommandHandler.NumberExamples | src/BaseCommandHandler.cpp:73-116 | 255 renders as `255`, 0 as `0`, and -32768 as `-32768`. |
| CommandHandler.NullFieldExamples | src/BaseCommandHandler.cpp:81-135 | A null value with key 3 gives `3` and an empty value. A null key with a value keeps the value. |
| CommandHandler.ErrorWord | src/BaseCommandHandler.cpp:31-34 | The error word is the given error text when that is non-null and non-empty, and `error` otherwise. |
| CommandHandler.AckOkPayload | src/BaseCommandHandler.cpp:13-14 | The payload is a prefix of `cmd=ok` of at most 63 characters, and all of it when it fits. |
| CommandHandler.AckErrPayload | src/BaseCommandHandler.cpp:30-34 | The payload is a prefix of `cmd=` plus the error word, of at most 63 characters, and all of it when it fits. |
| CommandHandler.AckErrFlashPayload | src/BaseCommandHandler.cpp:52-65 | The flash payload is at most 63 characters. |
| CommandHandler.TruncateTail | src/BaseCommandHandler.cpp:52-65 | Copying the error text into its own 63-character buffer first does not change the 63-character payload. |
| CommandHandler.FlashAgreesWithRam | src/BaseCommandHandler.cpp:22-71 | The two `sendAckErr` overloads build the same payload for a null error and for every non-empty error text. |
| CommandHandler.FlashEmptyErrorDiffers | src/BaseCommandHandler.cpp:31-34 | For an empty error text the RAM overload sends `cmd=error`, but the flash overload sends `cmd=`. |
| CommandHandler.AckPayloadStartsWithCommand | src/BaseCommandHandler.cpp:13-14 | When the command fits the buffer, every payload starts with the command and `=`. |
| CommandHandler.AckWithoutParams | src/BaseCommandHandler.cpp:16-17 | Without parameters the reply is `ACK`, a separator, the payload and the terminator. |
| CommandHandler.AckWithParams | src/BaseCommandHandler.cpp:18-19 | With parameters the payload is followed by a separator and the parameters. |
| CommandHandler.SendAckOk | src/BaseCommandHandler.cpp:3-20 | Nothing is printed for a null sender or command. Otherwise exactly one `ACK` line with the `cmd=ok` payload is printed, and the parser is untouched. |
| CommandHandler.SendAckErr | src/BaseCommandHandler.cpp:22-40 | The same, with the `cmd=err` or `cmd=error` payload. |
| CommandHandler.SendAckErrFlash | src/BaseCommandHandler.cpp:42-71 | The same, with the payload of the flash overload. |
| CommandHandler.Send | src/BaseCommandHandler.cpp:16-19 | The two-argument and the five-argument calls of `sendCommand` print the same reply when there are no parameters. |
| Parser.Initial | src/SerialCommandManager.cpp:12-37 | The constructed state reads nothing, has no parameters, no command and no raw message, and has debug mode and the timeout flag off. |
| Parser.Run | src/SerialCommandManager.cpp:66-157 | A call of `readCommands` keeps five slots and a count of at most five. |
| Parser.Begin | src/SerialCommandManager.cpp:72-84 | Every byte sets reading, stamps the arrival time and is appended to the raw message. A byte arriving while idle first clears the raw message, the buffer, the count and the timeout flag and enters command mode. A byte during a message keeps them. |
| Parser.CheckTimeout | src/SerialCommandManager.cpp:149-156 | An error is printed exactly when a message is in progress and more than the timeout has passed since its last byte. Then reading stops and the flag is set; otherwise nothing changes. A message still being read afterwards is within the timeout. |
| Parser.FinishedText | src/SerialCommandManager.cpp:91-95 | The finished buffer is the trimmed buffer, or that without its last character. It always loses the last character for a NUL terminator. It is the trimmed buffer when the terminator is not NUL and does not occur in the buffer. |
| Parser.CommandToken | src/SerialCommandManager.cpp:97-104 | The command contains no command separator and neither starts nor ends with whitespace. |
| Parser.NulTerminatorExample | src/SerialCommandManager.cpp:91-95 | With a NUL terminator, the buffer `PING` yields the command `PIN`. |
| Parser.DebugToken | src/SerialCommandManager.cpp:213-216 | The token contains no lower-case letter and neither starts nor ends with whitespace. |
| Wire.EndsWithTerminator | src/SerialCommandManager.cpp:92 | The manager's test is `endsWith` applied to `String(terminator)`. |
| Wire.IdentifierSuffix | src/SerialCommandManager.cpp:196-197 | The suffix is empty exactly without an identifier; otherwise it is `: (`, the identifier and `)`. |
| Wire.CommandText | src/SerialCommandManager.cpp:159-200 | `sendCommand` prints nothing exactly when the header is empty; otherwise its last character is the terminator. |
| Wire.MessageText | src/SerialCommandManager.cpp:232-249 | `sendMessage` prints nothing exactly for an empty message or a `DEBUG` message outside debug mode; otherwise its line starts with the type, `:` and the message. |
| Wire.MessageTextFramed | src/SerialCommandManager.cpp:232-249 | A line with no identifier, sent with a terminator that is neither NUL nor `:` and that does not occur in the type or the message, contains the terminator exactly once, as its last character. |
| Wire.ErrorText | src/SerialCommandManager.cpp:251-254 | `sendError` prints nothing exactly for an empty message; otherwise its line starts with `ERR:`. |
| Wire.DebugText | src/SerialCommandManager.cpp:227-230 | `sendDebug` prints nothing exactly for an empty message or outside debug mode; otherwise its line starts with `DEBUG:`. |
| CommandHandler.AckText | src/BaseCommandHandler.cpp:16-19 | An acknowledgement is never empty and ends with the terminator. |
| CommandHandler.RendersExactly | src/BaseCommandHandler.cpp:73-116 | A text is the canonical base-10 rendering of a number exactly when it is the `itoa` output for that number. |
| Text.Trim | src/SerialCommandManager.cpp:91 | `trim` never lengthens a text, keeps only its own characters, and leaves no whitespace at either end. |
| Text.EndsWithChar | src/SerialCommandManager.cpp:92 | `endsWith(String(c))` holds for every text when `c` is NUL and otherwise exactly when the last character is `c`. |
| Text.RemoveFrom | src/SerialCommandManager.cpp:94 | `remove(index)` keeps a prefix: the first `index` characters for an index inside the text, and everything otherwise. |
| Text.NatDecimal | src/BaseCommandHandler.cpp:76 | The decimal text of a natural number is non-empty and all digits. |
| Text.IntDecimal | src/BaseCommandHandler.cpp:114 | The decimal text of an integer is non-empty and starts with `-` exactly for negatives. |
| Text.LeadingDigitPositive | src/BaseCommandHandler.cpp:76 | Digits that do not start with `0` have a positive value. |
| Text.CanonicalDecimal | src/BaseCommandHandler.cpp:76 | Canonical digits are the rendering of their own value. |
| Text.TrimStartSpec | src/SerialCommandManager.cpp:91 | Trimming the start removes exactly the leading whitespace. |
| Text.TrimEndSpec | src/SerialCommandManager.cpp:91 | Trimming the end removes exactly the trailing whitespace. |
| Text.TrimIsInnerSlice | src/SerialCommandManager.cpp:91 | `trim` keeps a contiguous slice that neither starts nor ends with whitespace, and drops only whitespace. |
| Text.TrimKeepsTrimmed | src/SerialCommandManager.cpp:104 | Trimming a trimmed text changes nothing. |
| Text.IndexOf | src/SerialCommandManager.cpp:97 | `indexOf` is -1 exactly when the character is absent; otherwise it is the first position of that character. |
| Text.ToUpper | src/SerialCommandManager.cpp:216 | Upper-casing keeps the length, leaves no lower-case ASCII letter, and keeps whitespace where it was. |
| Text.UpperToOAndN | src/SerialCommandManager.cpp:216 | Only `o` and `O` become `O`, and only `n` and `N` become `N`. |
| Text.Truncate | src/BaseCommandHandler.cpp:87-88 | The result is a prefix of at most the capacity: the text itself when it fits, exactly the capacity otherwise. |
| Text.TruncateTwice | src/BaseCommandHandler.cpp:56-65 | Truncating twice keeps the smaller capacity. |
| Text.NatDecimalRoundTrip | src/BaseCommandHandler.cpp:76 | The decimal text of a natural number reads back as that number. |
| Text.NatDecimalCanonical | src/BaseCommandHandler.cpp:76 | The decimal text starts with `0` only for zero, which is exactly `0`. |
| Text.NatDecimalLength | src/BaseCommandHandler.cpp:76 | A number below 10^k has at most k digits. |
| Text.IntDecimalRoundTrip | src/BaseCommandHandler.cpp:114 | The decimal text of an integer starts with `-` exactly for negatives and reads back as the integer. |

## Left out

- The `Stream` transport is not modelled as an object.
  - `available`/`read` become the `available` argument of `ReadCommands`, which returns the bytes it left unread.
  - `print` appends to the `output` field.
- `millis()` is the argument `now`, and the same `now` is used for every byte of one call.
  - Time is a natural number, so the unsigned wrap-around of `millis() - _lastCharTime` is not modelled.
  - A `now` earlier than the last byte never times out.
- The fallback callback's own effects are not modelled. It is recorded as the `Message` it could read through the getters (command, parameters, raw message).
- The `reserve` calls of the constructor (src/SerialCommandManager.cpp:23-36) only hint at capacity and are not modelled. So are the `YIELD` macro and the `F()` wrapper.
- The C++ constructor leaves `_paramCount` and `_messageTimeout` uninitialised; here they start at 0 and false.
- `ISerialCommandHandler`, the interface `BaseCommandHandler` derives from (src/BaseCommandHandler.h:15), is not part of this model, and neither are the handler registry and `supportsCommand` that the tests use.
- `strncpy_P` reads from flash memory. Here it is an ordinary copy.
- C strings are sequences without NUL. A `nullptr` argument is `None`, and `int` is the 32-bit range.
- Key and value are unbounded sequences in `Wire.KeyValue`, as in the header's `String` fields.
  - The 10- and 32-character caps hold only for what `makeParam` builds.
  - The parser does not cap parameter fields, just as `readCommands` does not.
- `DefaultMaxParamValueLength` is not defined in `src/BaseCommandHandler.h`; it is taken as 32. The handler tests need at least 27, and it must exceed `DefaultMaxParamKeyLength`, which is 10.
- The library's documented protocol and its code differ in places; the model follows the code.
  - Only the command buffer is checked against the maximum message size. The raw message and the parameter fields are not limited.
  - `sendCommand` always prints a command separator after the header, so a reply `PONG` with no message and no parameters is `PONG:` plus the terminator.
  - `DEBUG` with one parameter switches debug mode off for every token other than `ON`, not only for `OFF`.
  - `src/BaseCommandHandler.h` declares the ACK helpers with `String` arguments; the model follows the `const char*` definitions in `src/BaseCommandHandler.cpp`.
- CommandHandler.AckErrFlashPayload: its contract states only the length bound. Its content is related to the RAM overload by `FlashAgreesWithRam` and `FlashEmptyErrorDiffers`.
- Parser.Complete: its contract states the frame and the at-most-one callback. What the command becomes and when the callback runs is in `StepCompletes` and `CompleteDispatches`.
- RoundTrip.CommandTextRoundTrip: covers only lines whose header is within the maximum message size; a longer header makes the parser stop with `Too Long` (`Parser.StepOverflow`).
- RoundTrip.CommandTextRoundTrip: covers only lines with at most five fields, counting the message. `sendCommand` prints a message and up to five parameters (src/SerialCommandManager.cpp:168-169), but the parser has five slots (src/SerialCommandManager.cpp:111-121). On a sixth field the separator opens nothing, and the field's key and value are appended to the key and value of slot 5 (`Parser.ExtraSeparatorExtendsLastKey`): `H:m:a=1:b=2:c=3:d=4:e=5` reads back with `de=45` as its last parameter. `sendAckOk` and `sendAckErr` with five parameters produce such lines.
- RoundTrip.CommandTextRoundTrip: covers lines without an identifier only. A non-empty identifier adds `: (id)` with a literal `:`, and how the parser reads it back depends on the configuration.
  - With `:` as the command separator and fewer than five slots open, it opens one more slot whose key is ` (id)`.
  - With `:` as the command separator and five slots open, it opens nothing, and ` (id)` extends the key of slot 5 (`Parser.ExtraSeparatorExtendsLastKey`).
  - With any other command separator, the whole `: (id)` is content of the field being read, unless `:` is the parameter separator.
