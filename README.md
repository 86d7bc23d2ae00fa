# ZPB30A1 DC load controller — a Dafny model

`control.py` is a small command-line controller for the ZPB30A1 60 W
electronic DC load. The program works as follows:

- It opens a serial port and wakes the instrument with `!`.
- It then loops on a text menu offering three options: choose the
  operating mode (constant current, voltage, power or resistance), enter
  the set-point, or activate the load.
- Activating the load sends the mode, the set-point and the `R` command.
  It then polls the instrument for telemetry: it writes `D`, reads a line
  of nine comma-separated fields and shows a decoded row. This goes on
  until Ctrl+C, after which the load is switched off with `S`.
- Once the port is open, every way out of the program writes `S` and
  closes the port: `x`, Ctrl+C, and any exception. When `serial.Serial`
  itself fails (control.py:187), `ser` is never bound and the handler
  fails in turn, so nothing is written.

This project models that core and proves what it promises.

The model is split by concern into eight modules:

- `Wrappers`: `Option`.
- `Text`: the Python text handling the program relies on.
  - `int()` on a string (`ParseInt`), as a character-by-character
    `Scanner`. It follows Python 3.11 and later with the default limit on
    integer string conversion: a text of more than 4300 digits (leading
    zeros included) is rejected with `ValueError`. `Literal` is the same
    scanner without that limit, used for the instrument's reading of a
    command.
  - The white space `int()` skips around the digits (`IntSpace`) is not
    quite `str.isspace` (`IsSpace`). `int()` leaves the ASCII characters
    as they are and skips only space, tab, line feed, vertical tab, form
    feed and carriage return. So the separators U+001C to U+001F, which
    `rstrip` removes, make `int()` fail.
  - `%u` / `%d` output.
  - `str.rstrip` and `str.split`.
- `Floats`: which integers convert to a Python float. Those of magnitude
  `2**1024 - 2**970` or more raise `OverflowError`.
- `Clock`: `convert`.
- `Protocol`: the command lines and the instrument's command table.
- `Telemetry`: the decoding of one line and the live-data loop.
- `Menu`: `set_mode`, `set_set_point` and the main-menu choice.
- `Controller`: `main`, in two parts.
  - A specification on values: `State`, `Step`, `Run` and the safety
    invariant `Safe`.
  - The imperative program: the `SerialPort` class and the methods
    `EnableLoad`, `DisableLoad`, `ShowLiveData`, `Activation`, `MenuPass`
    and `MainLoop`. Each is proved against that specification.

The line reads of the serial port, and the operator's answers to the
prompts, are inputs to the model:

- An `Action` is one menu prompt: the choice, the sub-menu answer, and the
  replies to the telemetry requests should the load be activated.
- The interrupt (Ctrl+C) at a prompt is `Interrupt`.
- Ctrl+C during live data is the end of the reply sequence.

The main results:

- `ControllerSafe` holds for every run, of any length, with any answers
  and any instrument replies, whether or not the port opens. After every
  pass through the loop, everything written is the wake-up character
  followed by well-formed commands. On the instrument those commands
  leave the load switched off. A closed port was last told `S`.
- `MainLoop` does exactly what `Run` specifies.
- `ConvertRoundTrip`: the text `convert` returns reads back as the
  seconds since midnight it stands for.
- `DecodeDeviceLine`: a telemetry line built from five measurements
  decodes to exactly those measurements.
- `ChooseMode` and `ReadSetPoint` give the menus' rules, including the
  clamp to 65535, in both directions.

Three behaviours of the code are easy to miss; the model follows the code:

- A non-numeric set-point answer does not leave the previous set-point in
  place. `set_set_point` returns the raw text (control.py:76-78) and
  `main` stores it (control.py:211). The loop then goes round, and
  `print_menu` formats the text with `%u` (control.py:194, 172) before the
  next `input` (control.py:195). That raises `TypeError`, which the
  `except Exception` handler turns into `S` and closing the port. So
  after such an answer the program ends at once, before the next prompt:
  see `Step` and `StepSetPointMenu`. An open port therefore always holds
  a numeric set-point (`Safe`).
- A telemetry line with nine fields and a measurement that cannot be
  shown does not let polling continue. The measurement may not be an
  integer (`int()` raises `ValueError`). Or it may be too large for a
  float, and the scaling by `0.1` or `/ 1000.0` raises `OverflowError`.
  Both happen in `show_live_data` (control.py:142-144), and only
  `KeyboardInterrupt` is caught there (control.py:156). The error reaches
  `main`'s handler, which writes `S` and closes the port: see `Session`,
  `SessionRule` and `Activation`.
- In constant resistance mode, `enable_load` writes `M2` and then prints
  `set_point * 0.1` (control.py:107-108). With a set-point too large for
  a float (for example minus ten to the 400th power, which `int()`
  accepts), that raises `OverflowError` before the set-point or `R` is
  written. The handler then writes `S` and closes the port: see
  `EnableOverflows`, `EnableLog` and `EnableLoad`.
- The set-point has no lower bound. `%u` writes a negative value with its
  sign, so the instrument is sent for example `c-5`.

## Model

| member | source | states |
|---|---|---|
| Text.RStrip | control.py:131 | `rstrip()` gives a prefix of the line that does not end in white space, and everything it removed is white space |
| Text.IntToString | control.py:87 | `%u` text is non-empty and ends in a digit; it starts with `-` exactly when the value is negative, and otherwise with a digit |
| Text.NatToString | control.py:33 | the decimal text of a natural number is all digits, with a leading `0` only for zero |
| Text.ParseInt | control.py:73 | `int()` on text: the scanner's reading of optional white space, sign, digits with single underscores and white space, rejected when it read more than 4300 digits; what it accepts is stated by the lemmas below |
| Text.LiteralOfIntToString | control.py:87 | the scanner without a digit limit reads back exactly the integer that `%u` wrote, having read one digit per digit written |
| Text.ParseIntOfIntToString | control.py:73 | `int()` reads back exactly the integer that `%u` wrote, negative ones included, when it has at most 4300 digits; a longer one is rejected |
| Text.ParsedWithinLimit | control.py:73 | every integer `int()` accepts has at most 4300 digits |
| Text.SeparatorIsNotIntSpace | control.py:73 | `int()` rejects a number preceded by U+001C, although `str.isspace` counts that character as white space |
| Text.ParseIntOfDigits | control.py:73 | `int()` reads a non-empty string of at most 4300 decimal digits as its value, leading zeros included |
| Text.ParseIntNeedsDigit | control.py:44-47 | `int()` rejects every text that contains no digit (the `ValueError` path) |
| Text.Split | control.py:132 | `split(',')` gives one more field than there are commas, and no field contains a comma |
| Text.JoinSplit | control.py:132 | joining the fields of a split with the separator gives back the original text |
| Text.SplitJoin | control.py:132 | splitting the join of comma-free fields gives back exactly those fields |
| Floats.FitsFloatDigits | control.py:108 | an integer that converts to a float has at most 309 digits, well within `int()`'s limit |
| Clock.Convert | control.py:27-33 | `convert`: the day-reduced count as `%d:%02d:%02d`; its meaning is stated by `ConvertRoundTrip` and `ConvertShape` |
| Clock.TimeOfDayOf | control.py:27-32 | hours below 24, minutes and seconds below 60, and together they make the count modulo one day (a negative count falls on the previous day) |
| Clock.Pad2 | control.py:33 | `%02d` of a value below 100 is exactly two digits |
| Clock.ParseIntOfPad2 | control.py:33 | the two padded digits read back as the value |
| Clock.ConvertRoundTrip | control.py:27-33 | the `H:MM:SS` text of `convert` splits into three fields that read back as the seconds since midnight |
| Clock.ConvertShape | control.py:33 | `convert` writes one or two hour digits, a colon, two minute digits, a colon and two second digits |
| Protocol.Mode.Index | control.py:21-24 | the four modes are numbered 0 to 3 |
| Protocol.FixedLines | control.py:113 | `!`, `R`, `S` and `D` lines are the wake-up, activate, deactivate and data-request commands |
| Protocol.ModeLine | control.py:82-107 | the first line `enable_load` writes selects the mode it was given: `M0` for CC, `M3` for CV, `M1` for CP, `M2` for CR |
| Protocol.ValueLine | control.py:87-110 | the second line is the mode's set-point command carrying exactly the set-point: `c`, `v`, `w` or `r` followed by its `%u` text |
| Protocol.EnableOverflows | control.py:105-108 | `enable_load` raises exactly in constant resistance mode with a set-point that does not convert to a float |
| Protocol.EnableLog | control.py:81-114 | the lines `enable_load` writes, in order; what they mean is stated by `EnableLogCommands` |
| Protocol.EnableLogCommands | control.py:81-114 | `enable_load` writes exactly three terminated lines: the mode select, the set-point command for that mode and value, then activate. When it raises, it has written exactly one line, the mode select |
| Protocol.ResistanceOverflowExample | control.py:105-108 | constant resistance at minus ten to the 309th power writes only `M2` before `enable_load` raises |
| Protocol.ResistanceExample | control.py:105-113 | constant resistance at 150 writes `M2`, `r150`, `R` |
| Telemetry.StatusOf | control.py:135-140 | field 0 `D` means disabled, `A` means active, and anything else means out of regulation |
| Telemetry.ParseInts | control.py:142-144 | the measurements read as integers exactly when each field does, with each value the reading of its own field |
| Telemetry.DecodeSilence | control.py:130-154 | a reply counts as "no response" exactly when the read returned nothing |
| Telemetry.DecodeWrongShape | control.py:131-151 | a non-empty reply is "unexpected" exactly when, after `rstrip`, it does not have the eight commas of nine fields |
| Telemetry.DecodeLine | control.py:129-151 | one reply: no response when empty; unexpected unless it has nine fields after `rstrip`; otherwise the fields decoded. Its cases are stated by the lemmas below |
| Telemetry.DecodeFields | control.py:134-144 | nine fields: the status and the five measurements read with `int()`, or malformed when one of them is not an integer or does not fit a float |
| Telemetry.DecodeFieldsBad | control.py:142-144 | nine fields fail to decode exactly when some measurement field (2 to 6) is not an integer or is too large for a float |
| Telemetry.DecodeBadNumber | control.py:130-144 | a nine-field reply raises `ValueError` or `OverflowError` exactly when one of fields 2 to 6 is not an integer or is too large for a float |
| Telemetry.DecodeDeviceLine | control.py:129-149 | a line of nine comma-free fields whose fields 2 to 6 are decimal numbers that fit a float, with any trailing line ending, decodes to those five numbers, the status of field 0 and the current mode |
| Telemetry.DecodeIgnoresProtocolFields | control.py:134-144 | fields 1, 7 and 8 do not affect the decoded reading |
| Telemetry.Decoded | control.py:125-131 | the result of each poll, one per reply, in order |
| Telemetry.DecodedAt | control.py:127-131 | the result of cycle `k` is reply `k` decoded in the mode in effect |
| Telemetry.DecodedPrefix | control.py:127-131 | the first `n` results are the first `n` replies decoded |
| Telemetry.DecodedTail | control.py:127-131 | without the first reply, the rest of the results are unchanged |
| Telemetry.LiveData | control.py:125-158 | live data runs no more cycles than there are replies; a malformed line ends a cycle without showing it; every other cycle shows its result |
| Telemetry.LiveDataPolls | control.py:125-158 | the results shown are the polls in order up to the first malformed one; the loop fails exactly when some poll is malformed, and otherwise runs until the replies end |
| Telemetry.LiveDataAllShown | control.py:127-155 | with no malformed line, every result is shown and polling lasts until the interrupt |
| Telemetry.LiveDataFirstMalformed | control.py:142-158 | the first malformed line ends live data: earlier results shown, its cycle the last |
| Telemetry.SilenceContinues | control.py:152-155 | an empty read is shown as no response and the next cycle follows, with the rest unaffected |
| Menu.MenuIndex | control.py:44-47 | `int(text) - 1`, or 99 when `int()` raises `ValueError`; the menus' rules built on it are stated by `ChooseMode` and `MainChoice` |
| Menu.ChooseMode | control.py:43-57 | `set_mode` picks CC, CV, CP or CR exactly when `int()` of the answer is 1, 2, 3 or 4; any other answer gives the `-99` sentinel (None) |
| Menu.ChooseModeOfNumber | control.py:39-57 | typing the number printed beside a mode picks that mode; any other number picks none |
| Menu.ChooseModeNeedsDigit | control.py:44-57 | text without a digit never picks a mode |
| Menu.ReadSetPoint | control.py:72-78 | the set-point is a number exactly when the answer reads as an integer, capped at 65535 and otherwise unchanged; if not, it is the raw text itself |
| Menu.ReadSetPointOfNumber | control.py:72-78 | typing an integer of at most 4300 digits in decimal sets that integer, or 65535 if it is larger; a longer one is kept as text |
| Menu.ReadSetPointStable | control.py:72-78 | typing back the set-point as `%u` shows it leaves it unchanged |
| Menu.MainChoice | control.py:200-216 | options 1, 2 and 3 are chosen exactly when `int()` of the choice is 1, 2 or 3 |
| Controller.Repeat | control.py:128 | `n` copies of the telemetry request, one per cycle |
| Controller.ReadLogAppend | control.py:191-225 | the commands of two stretches of writes are the commands of each, concatenated |
| Controller.ReadLogLine | control.py:191-225 | one written line is read as its command |
| Controller.LoadOnRequests | control.py:128 | telemetry requests do not switch the load on or off |
| Controller.ReadLogRequests | control.py:128 | every telemetry request written is a `D` command |
| Controller.ReadThreeLines | control.py:81-114 | three lines that each are a command are read as those three commands |
| Controller.EnableCommands | control.py:81-114 | what `enable_load` tells the instrument: select mode, set-point, activate; only select mode when it raises |
| Controller.ReadEnableLog | control.py:81-114 | `enable_load`'s lines read as its commands |
| Controller.ReadSessionLog | control.py:212-215 | one activation tells the instrument exactly: `enable_load`'s commands, one data request per cycle, deactivate |
| Controller.LoadOnWhilePolling | control.py:212-214 | while live data is running the load is on |
| Controller.LoadOffAfterSession | control.py:215 | after an activation, whatever came before, the load is off |
| Controller.ExitIsNoOption | control.py:196-203 | `x` is not one of the numbered options |
| Controller.Start | control.py:183-191 | `main` after opening the port: constant current, set-point 1000, the wake-up character written; nothing written when the port does not open |
| Controller.Shutdown | control.py:196-198 | every way out: `S` written, then the port closed |
| Controller.ChangeMode | control.py:204-209 | option 1 on the state; its rule is stated by `ModeRule` |
| Controller.Session | control.py:212-215 | option 3 on the state: the session's lines written, the port closed when `enable_load` or `show_live_data` raised; its rule is stated by `SessionRule` |
| Controller.SessionCycles | control.py:212-214 | the telemetry requests of one activation: none when `enable_load` raised, else one per cycle of live data |
| Controller.Step | control.py:193-217 | one pass of the loop; after it, an open port holds a numeric set-point |
| Controller.Run | control.py:193 | the loop over a run of prompts until the port closes; an open port at its end holds a numeric set-point |
| Controller.ExitRule | control.py:194-199 | Ctrl+C at a prompt or `x` leaves the mode and set-point as they were, writes `S` and closes the port |
| Controller.StepModeMenu | control.py:204-209 | option 1 only runs the mode rule |
| Controller.StepSetPointMenu | control.py:210-211 | option 2 stores what `set_set_point` returns and keeps the mode. For a number nothing is written and the port stays open. For text (whose `%u` at control.py:172 raises `TypeError` before the next prompt) it writes `S` and closes the port in the same pass |
| Controller.StepActivate | control.py:212-215 | option 3 runs one activation |
| Controller.StepNoOption | control.py:216-217 | any other choice changes nothing |
| Controller.ModeRule | control.py:204-209 | the mode changes exactly when the answer names a valid mode other than the current one. The new mode is that one and the set-point returns to 1000. If the mode does not change, the set-point stays. Nothing is written |
| Controller.SessionRule | control.py:212-226 | an activation keeps the mode and set-point and writes exactly the session's commands. It closes the port exactly when the resistance set-point overflows a float or some reply read was a malformed telemetry line |
| Controller.SessionFailure | control.py:142-158 | live data ends in an exception exactly when some reply is malformed |
| Controller.StartSafe | control.py:183-191 | the state after opening the port is safe: only the wake-up character written |
| Controller.ShutdownSafe | control.py:218-226 | writing `S` and closing keeps the controller safe and leaves the load off |
| Controller.SessionSafe | control.py:212-226 | an activation, whether it ends normally or through the handler, keeps the controller safe |
| Controller.StepKeepsSafe | control.py:193-217 | each pass of the menu loop keeps the controller safe |
| Controller.RunKeepsSafe | control.py:193-226 | any number of passes keep the controller safe |
| Controller.ControllerSafe | control.py:183-226 | for every run, the writes are the wake-up and commands only, the load is off, and a closed port was last told `S` |
| Controller.TextSetPointEndsAtOnce | control.py:194-225 | option 2 answered with `abc` ends the program in that pass: `!` and `S` written, the port closed |
| Controller.RunAfterClose | control.py:196-199 | once the port is closed the program has ended and nothing further happens |
| Controller.RunAppend | control.py:193 | running two stretches of prompts is running them one after the other |
| Controller.SerialPort.constructor | control.py:187 | a freshly opened port, with nothing written yet |
| Controller.SerialPort.Write | control.py:191 | one more line written, in order |
| Controller.SerialPort.Close | control.py:198 | the port is closed and nothing more is written |
| Controller.EnableLoad | control.py:81-114 | writes exactly `enable_load`'s lines after what was written before, and leaves the port open; it reports raising exactly when constant resistance meets a set-point too large for a float, and then only `M2` has been written |
| Controller.DisableLoad | control.py:117-118 | writes exactly the `S` line |
| Controller.PollOnce | control.py:128-131 | one cycle writes one `D` line and yields the decoded reply of that cycle |
| Controller.ShowLiveData | control.py:121-158 | the polling loop gives exactly `LiveData` of the decoded replies: what it showed, how many cycles ran, whether it failed. It writes one `D` per cycle |
| Controller.ShownPolls | control.py:127-158 | when the loop stops, the shown results, cycles and failure are those of `LiveData` |
| Controller.Activation | control.py:212-215 | option 3 on the port writes and closes exactly as `Session` says, both exception paths included |
| Controller.MenuPass | control.py:193-217 | one pass of the loop on the port changes mode, set-point and port exactly as `Step` says |
| Controller.MainLoop | control.py:183-226 | `main` from the wake-up character to the end of the loop ends in exactly the state `Run` gives from the start state |

## Left out

- Serial-port configuration, `ser.isOpen()`, `flushInput` and the line
  encoding: the port is modelled as the sequence of lines written to it
  and whether it is open. Replies are taken as already-decoded text, since
  they come from hardware the model cannot see. A reply that is not valid
  UTF-8 (`UnicodeDecodeError`) is not modelled.
- Every `print`, `input`, the logo, `show_logo`, the menu text and the
  usage message. The argument-count check (`sys.argv`) and the port name
  are left out too: they are console and command-line I/O.
- `print_menu` is modelled only for what it can raise (`%u` on a text
  set-point).
- `Protocol.ParseWire`, `Controller.LoadOn` and `Clock.ParseClock` are not
  code of the program. They model the instrument's command table, the
  instrument's load state, and an inverse of `convert`, and the program's
  behaviour is stated against them.
- `sleep` and the 5-second read timeout: the model has no time. A timed-out
  read is an empty reply.
- `datetime.now()` and the floating-point display of the readings
  (`%2.3f`, the scale factors `0.1` and `/ 1000.0`, `%-9s`), and of
  `enable_load`'s CR message: the model keeps the integers as read. Of
  these conversions it models only the `OverflowError` they raise.
- `KeyboardInterrupt` is modelled as a way out, not as a signal. It is taken
  only at a menu prompt (`Interrupt`) or between two poll cycles (the end
  of the replies). An interrupt in the middle of `enable_load`, or during
  its sleeps, is not modelled. Such an interrupt would reach `main`'s
  handler after a partial activation.
- A failing `ser.write` (`SerialException`) is not modelled: writes always
  succeed.
- The port failing to open is modelled only by `Start(false)`. Then `ser`
  is never bound, the handler itself fails, and nothing is written or
  closed.
- `enable_load` with a mode outside 0 to 3, and `set_set_point`'s result of
  `0` for such a mode: `mode` is always one of the four modes in `main`, so
  `Mode` has exactly four values.
- Unicode digits: `int()` also accepts the decimal digits of other
  scripts (for example Arabic-Indic digits). `Scanner` accepts only ASCII
  `0`-`9`, so the model rejects text that Python would accept.
- White space follows `str.isspace`'s documented table. It is written out
  as a fixed list, so it is not derived from a Unicode database.
- `%u` of an integer with more than 4300 digits also raises `ValueError`
  in Python 3.11 and later. `EnableLog` writes such a set-point anyway.
  No run reaches one: the set-point starts at 1000 and otherwise comes from
  `int()`, which rejects such texts (`ParsedWithinLimit`).
- Python before 3.11, without the digit limit: the model follows 3.11 and
  later with the default limit, since `sys.set_int_max_str_digits` is never
  called.
